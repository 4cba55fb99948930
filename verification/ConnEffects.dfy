/** Which candidates are dialled, and what becomes of the connections, said of the tables
    before and after. */
module ConnEffects {
  import opened Bytes
  import opened Torrent
  import opened PieceMgr
  import opened Disk
  import opened EngineTypes
  import opened EngineSteps
  import opened EngineInvariants
  import opened EngineLifecycle
  import opened EngineWeb
  import opened PeerEffects
  import opened BatchLaunch
  import opened LifeEffects

  /** The slots of the connections under way for this generation. */
  ghost function Dialled(conn: seq<Option<ConnJob>>, g: nat): set<nat> {
    set j: nat | j < |conn| && conn[j].Some? && conn[j].value.generation == g
  }

  lemma {:induction false} PendingIsDialled(conn: seq<Option<ConnJob>>, g: nat)
    ensures ConnPending(conn, g) == |Dialled(conn, g)|
  {
    if conn != [] {
      var last := |conn| - 1;
      PendingIsDialled(conn[..last], g);
      var before := Dialled(conn[..last], g);
      assert Dialled(conn, g) ==
             if conn[last].Some? && conn[last].value.generation == g then before + {last} else before;
    }
  }

  lemma ConnectedIs(peers: seq<Peer>, addr: Addr)
    ensures Connected(peers, addr) <==> OpenTo(peers, |peers|, addr)
  {
    if OpenTo(peers, |peers|, addr) {
      var p :| 0 <= p < |peers| && peers[p].sock.Some? && peers[p].addr == addr;
      assert ConnectedAt(peers, p, addr);
    }
  }

  // ----- dialling -----------------------------------------------------------------------

  /** May a candidate have its turn: the run is served and has candidates, fewer than four
      connections are under way, and with them it has fewer than fifty peers. */
  ghost predicate MayDial(w: World, t: nat) {
    && t < |w.torrents|
    && var mt := w.torrents[t];
       && mt.state in {DOWNLOADING, ERROR} && mt.table.Some? && mt.candidates != []
       && |Dialled(w.conn, mt.generation)| < 4 && mt.active + |Dialled(w.conn, mt.generation)| < 50
  }

  /** The turn goes to the next candidate. It is dialled unless it is being dialled, cooling
      down or connected, or no slot, memory or thread can be had. */
  ghost predicate TurnTaken(w: World, w': World, t: nat, ready: bool, resources: bool) {
    && OthersKept(w, w', t) && w' == w.(torrents := w'.torrents, conn := w'.conn)
    && var a, b := w.torrents[t], w'.torrents[t];
       && a.candidates != []
       && var n := |a.candidates|;
          var c := a.nextCandidate % n;
          var next := a.candidates[c];
          if next.connecting || !ready || OpenTo(a.peers, |a.peers|, next.addr) || !resources
             || (forall j :: 0 <= j < |w.conn| ==> w.conn[j].Some?)
          then b == a.(nextCandidate := (a.nextCandidate + 1) % n) && w'.conn == w.conn
          else
            && b == a.(nextCandidate := (a.nextCandidate + 1) % n,
                       candidates := a.candidates[c := Candidate(next.addr, next.failures, true)])
            && forall slot: nat :: FirstEmpty(w.conn, slot) ==>
                 w'.conn == w.conn[slot := Some(ConnJob(a.generation, next.addr, None, false))]
  }

  lemma TurnIs(w: World, t: nat, ready: bool, resources: bool)
    ensures var w' := Apply(w, EvScheduleConn(t, ready, resources));
            if MayDial(w, t) then TurnTaken(w, w', t, ready, resources) else w' == w
  {
    hide Apply, ConnPending, Connected, OpenTo, Dialled;
    ScheduleConnStep(w, t, ready, resources);
    if t < |w.torrents| && w.torrents[t].candidates != [] {
      var a := w.torrents[t];
      PendingIsDialled(w.conn, a.generation);
      ConnectedIs(a.peers, a.candidates[a.nextCandidate % |a.candidates|].addr);
      EmptyIs(w.conn);
    }
  }

  // ----- the worker -----------------------------------------------------------------------

  /** It opens one socket, keeps it if the handshake succeeds, and closes it if not. */
  lemma WorkerIs(w: World, j: nat, sock: nat)
    requires HasJob(w.conn, j) && !w.conn[j].value.done
    ensures var job := w.conn[j].value;
            && Apply(w, EvConnOpens(j, sock)) ==
               (if job.sock.Some? || sock in w.open then w
                else w.(conn := w.conn[j := Some(ConnJob(job.generation, job.addr, Some(sock), false))],
                        open := w.open + {sock}))
            && Apply(w, EvConnSucceeds(j)) ==
               (if job.sock.None? then w
                else w.(conn := w.conn[j := Some(ConnJob(job.generation, job.addr, job.sock, true))]))
            && Apply(w, EvConnFails(j)) ==
               w.(conn := w.conn[j := Some(ConnJob(job.generation, job.addr, None, true))],
                  open := w.open - if job.sock.Some? then {job.sock.value} else {})
  {
    assert w.open - {} == w.open;
  }

  // ----- collecting -----------------------------------------------------------------------

  /** A place for a new peer: the first closed one, or behind the last of fewer than fifty. */
  ghost predicate PlaceFor(peers: seq<Peer>, p: nat) {
    && (forall q :: 0 <= q < p && q < |peers| ==> peers[q].sock.Some?)
    && if p < |peers| then peers[p].sock.None? else p == |peers| < 50
  }

  /** Nobody is connected to the address, and there is a place. */
  ghost predicate Welcome(mt: Managed, addr: Addr) {
    !OpenTo(mt.peers, |mt.peers|, addr) && exists p: nat :: PlaceFor(mt.peers, p)
  }

  /** The candidate with the address is no longer being dialled; a failed connection counts. */
  ghost predicate Settled(a: seq<Candidate>, b: seq<Candidate>, addr: Addr, failed: bool) {
    |a| == |b| &&
    forall k :: 0 <= k < |a| ==>
      b[k] == if !FirstWith(a, addr, k) then a[k]
              else Candidate(addr, if failed && a[k].failures < 5 then a[k].failures + 1 else a[k].failures, false)
  }

  /** The run gets the connection: as a new peer that is choked and of which nothing is
      known, if it is welcome; otherwise nothing but the candidate changes. */
  ghost predicate Joined(a: Managed, b: Managed, job: ConnJob) {
    && Settled(a.candidates, b.candidates, job.addr, job.sock.None?)
    && if job.sock.Some? && Welcome(a, job.addr) then
         && b == a.(candidates := b.candidates, peers := b.peers, active := a.active + 1)
         && forall p: nat :: PlaceFor(a.peers, p) ==>
              var peer := Peer(job.sock, job.addr, true, None, None, 0);
              b.peers == if p < |a.peers| then a.peers[p := peer] else a.peers + [peer]
       else b == a.(candidates := b.candidates)
  }

  /** A finished connection: its slot is emptied, the run that is downloading under its
      generation gets it, and the socket is closed unless it has become a peer's. */
  ghost predicate ConnTaken(w: World, w': World, j: nat) {
    if !HasJob(w.conn, j) || !w.conn[j].value.done then w' == w
    else
      var job := w.conn[j].value;
      && w' == w.(torrents := w'.torrents, conn := w.conn[j := None], open := w'.open)
      && |w'.torrents| == |w.torrents|
      && (forall t :: 0 <= t < |w.torrents| ==>
            if Downloads(w.torrents[t], job.generation) then Joined(w.torrents[t], w'.torrents[t], job)
            else w'.torrents[t] == w.torrents[t])
      && w'.open ==
           if job.sock.Some? && !(exists t :: 0 <= t < |w.torrents| && Downloads(w.torrents[t], job.generation)
                                              && Welcome(w.torrents[t], job.addr))
           then w.open - {job.sock.value} else w.open
  }

  ghost predicate Downloads(mt: Managed, g: nat) {
    mt.generation == g && mt.state == DOWNLOADING
  }

  lemma ConnCollected(w: World, j: nat)
    requires Inv(w)
    ensures ConnTaken(w, Apply(w, EvCollectConn(j)), j)
  {
    hide Apply, Inv, CollectConnInto, Joined, Welcome;
    CollectConnStep(w, j);
    if HasJob(w.conn, j) && w.conn[j].value.done {
      var job := w.conn[j].value;
      GenerationsOf(w);
      forall t | 0 <= t < |w.torrents| && IsLive(w, t, job.generation)
        ensures FindLive(w, job.generation, |w.torrents|) == Some(t)
      {
        LiveIsUnique(w, job.generation, t, FindLive(w, job.generation, |w.torrents|).value);
      }
      forall t | 0 <= t < |w.torrents|
        ensures IsLive(w, t, job.generation) <==> Downloads(w.torrents[t], job.generation)
        ensures Joined(w.torrents[t], CollectConnInto(w.torrents[t], job).0, job)
        ensures CollectConnInto(w.torrents[t], job).1 <==> job.sock.Some? && Welcome(w.torrents[t], job.addr)
      {
        JoinedIs(w.torrents[t], job);
      }
    }
  }

  lemma PlaceIs(peers: seq<Peer>)
    ensures var slot := ClosedSlot(peers);
            && (PlaceFor(peers, slot) <==> slot < |peers| || |peers| < 50)
            && forall p: nat :: PlaceFor(peers, p) ==> p == slot
  {
  }

  lemma JoinedIs(mt: Managed, job: ConnJob)
    ensures Joined(mt, CollectConnInto(mt, job).0, job)
    ensures CollectConnInto(mt, job).1 <==> job.sock.Some? && Welcome(mt, job.addr)
  {
    hide Connected, OpenTo, ClosedSlot, PlaceFor, Settled;
    ConnectedIs(mt.peers, job.addr);
    PlaceIs(mt.peers);
    SettledIs(mt.candidates, job.addr);
  }

  lemma SettledIs(cs: seq<Candidate>, addr: Addr)
    ensures Settled(cs, ClearConnecting(cs, addr), addr, false)
    ensures Settled(cs, RecordFailure(ClearConnecting(cs, addr), addr), addr, true)
  {
  }
}
