/**
 The signaling server composed with the host daemons. A daemon reads the messages queued
 for its current connection in order, and keeps its session table when it dials again.
 `issued` remembers every room ever created, so a session's room can be spoken of after
 the server dropped it.
 */
module SessionSystem {
  import opened Options
  import opened SignalModel
  import opened SignalInvariants
  import H = HostModel

  type DaemonId = nat

  /** `conn` is the peer id of the daemon's current connection, 0 before it first dials. */
  datatype Daemon = Daemon(cfg: H.Config, conn: Id, sessions: H.Sessions)

  datatype System = System(server: Server, daemons: map<DaemonId, Daemon>, issued: map<Id, Room>)

  datatype Event =
    | Serve(op: Op)
    | Dial(d: DaemonId, id: Id)
    | Deliver(d: DaemonId, engineOk: bool)
    | Expire(d: DaemonId, room: Id)

  ghost predicate Can(s: System, e: Event)
    requires Wired(s.server)
  {
    match e
    case Serve(op) => Enabled(s.server, op) && (op.OpConnect? ==> op.room !in s.issued)
    case Dial(d, id) => d in s.daemons && Enabled(s.server, OpOpen(id))
    case Deliver(d, _) =>
      d in s.daemons && s.daemons[d].conn in s.server.all && s.server.all[s.daemons[d].conn].queue != []
    case Expire(d, _) => d in s.daemons
  }

  /** The room a server step creates, if it creates one. */
  function Issue(s: Server, op: Op, issued: map<Id, Room>): map<Id, Room>
    requires Wired(s)
  {
    if op.OpConnect? && ConnectTarget(s, op.target).Some?
    then issued[op.room := Room(ConnectTarget(s, op.target).value, op.p)]
    else issued
  }

  function Next(s: System, e: Event): (t: System)
    requires Wired(s.server) && Can(s, e)
    ensures Wired(t.server)
  {
    match e
    case Serve(op) => s.(server := Step(s.server, op), issued := Issue(s.server, op, s.issued))
    case Dial(d, id) => s.(server := Open(s.server, id), daemons := s.daemons[d := s.daemons[d].(conn := id)])
    case Deliver(d, engineOk) =>
      var dm := s.daemons[d];
      var peer := s.server.all[dm.conn];
      s.(server := Put(s.server, dm.conn, peer.(queue := peer.queue[1..])),
         daemons := s.daemons[d := dm.(sessions := H.Handle(dm.cfg, dm.sessions, peer.queue[0], engineOk))])
    case Expire(d, room) =>
      s.(daemons := s.daemons[d := s.daemons[d].(sessions := s.daemons[d].sessions - {room})])
  }

  ghost predicate IsRun(s: System, es: seq<Event>)
    requires Wired(s.server)
    decreases |es|
  {
    es == [] || (Can(s, es[0]) && IsRun(Next(s, es[0]), es[1..]))
  }

  ghost function After(s: System, es: seq<Event>): (t: System)
    requires Wired(s.server) && IsRun(s, es)
    ensures Wired(t.server)
    decreases |es|
  {
    if es == [] then s else After(Next(s, es[0]), es[1..])
  }

  /** No connection, no session, no room. */
  ghost predicate Start(s: System) {
    && s.server == EMPTY
    && s.issued == map[]
    && forall d | d in s.daemons :: s.daemons[d].conn == 0 && s.daemons[d].sessions == map[]
  }

  // ---- What holds in every run ----

  /** A queued message speaks of an issued room the reader belongs to. */
  ghost predicate Honest(issued: map<Id, Room>, reader: Id, m: Message) {
    match m
    case Connect(room, client) => room in issued && issued[room] == Room(reader, client)
    case Relayed(room, sender, _) =>
      room in issued && (issued[room] == Room(reader, sender) || issued[room] == Room(sender, reader))
    case _ => true
  }

  ghost predicate HonestQueues(s: Server, issued: map<Id, Room>) {
    forall p, i | p in s.all && 0 <= i < |s.all[p].queue| :: Honest(issued, p, s.all[p].queue[i])
  }

  ghost predicate RoomsIssued(s: Server, issued: map<Id, Room>) {
    && 0 !in s.all
    && (forall r | r in s.rooms :: r in issued && issued[r] == s.rooms[r])
    && (forall r | r in issued :: issued[r].host in s.all && issued[r].client in s.all)
  }

  /**
   A daemon's connection is known, its sessions serve the clients of issued rooms, its own
   connection only in a room of which that is also the host, and it keeps its limit.
   */
  ghost predicate DaemonSound(dm: Daemon, known: set<Id>, issued: map<Id, Room>) {
    && (dm.conn == 0 || dm.conn in known)
    && (forall r | r in dm.sessions :: r in issued && issued[r].client == dm.sessions[r])
    && (forall r | r in dm.sessions :: issued[r].client == dm.conn ==> issued[r].host == dm.conn)
    && (dm.cfg.maxSessions > 0 ==> |dm.sessions| <= dm.cfg.maxSessions)
  }

  ghost predicate DaemonsSound(daemons: map<DaemonId, Daemon>, known: set<Id>, issued: map<Id, Room>) {
    && (forall d | d in daemons :: DaemonSound(daemons[d], known, issued))
    && (forall d, e | d in daemons && e in daemons && daemons[d].conn == daemons[e].conn != 0 :: d == e)
  }

  ghost predicate ServerSound(s: Server, issued: map<Id, Room>) {
    Inv(s) && RoomsIssued(s, issued) && HonestQueues(s, issued)
  }

  ghost predicate Sound(s: System) {
    ServerSound(s.server, s.issued) && DaemonsSound(s.daemons, s.server.all.Keys, s.issued)
  }

  ghost predicate GrewHonestly(issued: map<Id, Room>, reader: Id, before: seq<Message>, after: seq<Message>) {
    before <= after && forall i | |before| <= i < |after| :: Honest(issued, reader, after[i])
  }

  ghost predicate QueuesGrew(all: map<Id, Peer>, more: map<Id, Peer>, issued: map<Id, Room>) {
    forall q | q in more :: GrewHonestly(issued, q, if q in all then all[q].queue else [], more[q].queue)
  }

  lemma HonestGrows(s: Server, t: Server, issued: map<Id, Room>)
    requires HonestQueues(s, issued) && QueuesGrew(s.all, t.all, issued)
    ensures HonestQueues(t, issued)
  {
    forall p, i | p in t.all && 0 <= i < |t.all[p].queue| ensures Honest(issued, p, t.all[p].queue[i]) {
      if p in s.all && i < |s.all[p].queue| {
        assert t.all[p].queue[i] == s.all[p].queue[i];
      }
    }
  }

  lemma PutGrows(all: map<Id, Peer>, id: Id, p: Peer, issued: map<Id, Room>)
    requires GrewHonestly(issued, id, if id in all then all[id].queue else [], p.queue)
    ensures QueuesGrew(all, all[id := p], issued)
  {
  }

  lemma SameGrows(all: map<Id, Peer>, issued: map<Id, Room>)
    ensures QueuesGrew(all, all, issued)
  {
  }

  lemma RelayGrows(s: Server, p: Id, body: string, issued: map<Id, Room>)
    requires ServerSound(s, issued) && p in s.peers
    ensures QueuesGrew(s.all, Relay(s, p, body).all, issued)
  {
    var t := Relay(s, p, body);
    var r := s.all[p].room;
    var reader := if r in s.rooms then Other(s.rooms[r], p) else p;
    assert t.all == s.all[reader := t.all[reader]];
    assert r in s.rooms ==> Member(s.rooms[r], p) && issued[r] == s.rooms[r];
    PutGrows(s.all, reader, t.all[reader], issued);
  }

  lemma RegisterGrows(s: Server, p: Id, reg: Option<Registration>, issued: map<Id, Room>)
    requires p in s.all
    ensures QueuesGrew(s.all, Register(s, p, reg).all, issued)
  {
    var t := Register(s, p, reg);
    PutGrows(s.all, p, t.all[p], issued);
    assert t.all == s.all[p := t.all[p]];
  }

  lemma ListGrows(s: Server, p: Id, issued: map<Id, Room>)
    requires Wired(s) && p in s.all
    ensures QueuesGrew(s.all, ListHosts(s, p).all, issued)
  {
    var t := ListHosts(s, p);
    PutGrows(s.all, p, t.all[p], issued);
    assert t.all == s.all[p := t.all[p]];
  }

  lemma QuietGrows(s: Server, op: Op, issued: map<Id, Room>)
    requires ServerSound(s, issued) && Enabled(s, op) && !op.OpConnect? && !op.OpLeave?
    ensures QueuesGrew(s.all, Step(s, op).all, issued)
  {
    match op
    case OpOpen(id) => PutGrows(s.all, id, Step(s, op).all[id], issued);
    case OpRegister(p, reg) => RegisterGrows(s, p, reg, issued);
    case OpUpdate(p, features) =>
      SameGrows(s.all, issued);
      PutGrows(s.all, p, Step(s, op).all[p], issued);
    case OpList(p) => ListGrows(s, p, issued);
    case OpRelay(p, body) => RelayGrows(s, p, body, issued);
  }

  lemma QuietSound(s: Server, op: Op, issued: map<Id, Room>)
    requires ServerSound(s, issued) && Enabled(s, op) && !op.OpConnect? && !op.OpLeave?
    ensures RoomsIssued(Step(s, op), issued) && HonestQueues(Step(s, op), issued)
    ensures s.all.Keys <= Step(s, op).all.Keys
  {
    QuietEffect(s, op);
    QuietGrows(s, op, issued);
    HonestGrows(s, Step(s, op), issued);
    assert 0 !in Step(s, op).all;
  }

  /** What a successful connect does to the queues, the rooms issued and the peers known. */
  lemma ConnectedSound(s: Server, t: Server, p: Id, h: Id, room: Id, issued: map<Id, Room>, info: HostInfo)
    requires ServerSound(s, issued) && p in s.all && h in s.all && room !in issued
    requires t.all.Keys == s.all.Keys && t.rooms == s.rooms[room := Room(h, p)]
    requires forall id | id in s.all && id != h && id != p :: t.all[id] == s.all[id]
    requires h != p ==> t.all[h].queue == s.all[h].queue + [Connect(room, p)]
    requires t.all[p].queue == s.all[p].queue + [RoomReady(room, h, info)] + (if h == p then [Connect(room, p)] else [])
    ensures RoomsIssued(t, issued[room := Room(h, p)]) && HonestQueues(t, issued[room := Room(h, p)])
  {
    var now := issued[room := Room(h, p)];
    forall q, i | q in t.all && 0 <= i < |t.all[q].queue| ensures Honest(now, q, t.all[q].queue[i]) {
      if i < |s.all[q].queue| {
        assert t.all[q].queue[i] == s.all[q].queue[i];
        assert Honest(issued, q, s.all[q].queue[i]);
      }
    }
  }

  lemma ConnectSound(s: Server, op: Op, issued: map<Id, Room>)
    requires ServerSound(s, issued) && op.OpConnect? && Enabled(s, op) && op.room !in issued
    ensures var t := ConnectPeer(s, op.p, op.target, op.room);
      && RoomsIssued(t, Issue(s, op, issued)) && HonestQueues(t, Issue(s, op, issued))
      && t.all.Keys == s.all.Keys
  {
    var t := ConnectPeer(s, op.p, op.target, op.room);
    match ConnectTarget(s, op.target) {
      case None =>
        ConnectFails(s, op.p, op.target, op.room);
        FailedSound(s, t, op.p, issued);
      case Some(h) =>
        ConnectEffect(s, op.p, op.target, op.room, h);
        ConnectedSound(s, t, op.p, h, op.room, issued, s.all[h].info);
    }
  }

  lemma FailedSound(s: Server, t: Server, p: Id, issued: map<Id, Room>)
    requires ServerSound(s, issued) && p in s.all
    requires p in t.all && t == s.(all := s.all[p := t.all[p]])
    requires exists e :: t.all[p].queue == s.all[p].queue + [Error(e)]
    ensures RoomsIssued(t, issued) && HonestQueues(t, issued)
  {
  }

  /** A departure appends at most one message, a PeerLeft, to at most one queue. */
  lemma LeaveQueues(s: Server, p: Id)
    requires Wired(s) && p in s.peers
    ensures var t := Leave(s, p);
      && t.all.Keys == s.all.Keys
      && (forall q | q in s.all :: t.all[q].role == s.all[q].role)
      && (forall q | q in s.all :: t.all[q].queue == s.all[q].queue
            + (if s.all[p].room in s.rooms && q == Other(s.rooms[s.all[p].room], p) then [PeerLeft(p)] else []))
  {
    LeaveEffect(s, p);
    if s.all[p].room in s.rooms {
      LeaveRoomEffect(s, p);
    }
  }

  lemma LeaveSound(s: Server, p: Id, issued: map<Id, Room>)
    requires ServerSound(s, issued) && p in s.peers
    ensures var t := Leave(s, p); RoomsIssued(t, issued) && HonestQueues(t, issued) && t.all.Keys == s.all.Keys
  {
    LeaveQueues(s, p);
    LeaveEffect(s, p);
    if s.all[p].room in s.rooms {
      LeaveRoomEffect(s, p);
    }
    LeftSound(s, Leave(s, p), p, issued);
  }

  lemma LeftSound(s: Server, t: Server, p: Id, issued: map<Id, Room>)
    requires ServerSound(s, issued)
    requires t.all.Keys == s.all.Keys && t.rooms.Keys <= s.rooms.Keys
    requires forall r | r in t.rooms :: t.rooms[r] == s.rooms[r]
    requires forall q | q in s.all :: t.all[q].queue == s.all[q].queue
              || t.all[q].queue == s.all[q].queue + [PeerLeft(p)]
    ensures RoomsIssued(t, issued) && HonestQueues(t, issued)
  {
    forall q, i | q in t.all && 0 <= i < |t.all[q].queue| ensures Honest(issued, q, t.all[q].queue[i]) {
      if i < |s.all[q].queue| {
        assert t.all[q].queue[i] == s.all[q].queue[i];
        assert Honest(issued, q, s.all[q].queue[i]);
      }
    }
  }

  lemma ServeSound(s: Server, op: Op, issued: map<Id, Room>)
    requires ServerSound(s, issued) && Enabled(s, op) && (op.OpConnect? ==> op.room !in issued)
    ensures ServerSound(Step(s, op), Issue(s, op, issued))
    ensures s.all.Keys <= Step(s, op).all.Keys
  {
    StepInv(s, op);
    match op
    case OpConnect(_, _, _) => ConnectSound(s, op, issued);
    case OpLeave(p) => LeaveSound(s, p, issued);
    case _ => QuietSound(s, op, issued);
  }

  lemma DaemonsStaySound(daemons: map<DaemonId, Daemon>, known: set<Id>, issued: map<Id, Room>,
                         known': set<Id>, issued': map<Id, Room>)
    requires DaemonsSound(daemons, known, issued) && known <= known'
    requires forall r | r in issued :: r in issued' && issued'[r] == issued[r]
    ensures DaemonsSound(daemons, known', issued')
  {
    forall d | d in daemons ensures DaemonSound(daemons[d], known', issued') {
      assert DaemonSound(daemons[d], known, issued);
    }
  }

  lemma TailSound(s: Server, p: Id, issued: map<Id, Room>)
    requires ServerSound(s, issued) && p in s.all && s.all[p].queue != []
    ensures ServerSound(Put(s, p, s.all[p].(queue := s.all[p].queue[1..])), issued)
  {
    var t := Put(s, p, s.all[p].(queue := s.all[p].queue[1..]));
    forall q, i | q in t.all && 0 <= i < |t.all[q].queue| ensures Honest(issued, q, t.all[q].queue[i]) {
      assert Honest(issued, q, s.all[q].queue[if q == p then i + 1 else i]);
    }
  }

  lemma HandleSound(dm: Daemon, known: set<Id>, issued: map<Id, Room>, m: Message, engineOk: bool)
    requires DaemonSound(dm, known, issued) && Honest(issued, dm.conn, m)
    ensures DaemonSound(dm.(sessions := H.Handle(dm.cfg, dm.sessions, m, engineOk)), known, issued)
  {
    if dm.cfg.maxSessions > 0 {
      H.HandleBound(dm.cfg, dm.sessions, m, engineOk);
    }
  }

  lemma ReplaceDaemon(daemons: map<DaemonId, Daemon>, known: set<Id>, issued: map<Id, Room>, d: DaemonId, dm: Daemon)
    requires DaemonsSound(daemons, known, issued) && d in daemons && DaemonSound(dm, known, issued)
    requires dm.conn == daemons[d].conn || forall e | e in daemons :: daemons[e].conn != dm.conn
    ensures DaemonsSound(daemons[d := dm], known, issued)
  {
  }

  lemma DialSound(daemons: map<DaemonId, Daemon>, known: set<Id>, issued: map<Id, Room>, d: DaemonId, id: Id)
    requires DaemonsSound(daemons, known, issued) && d in daemons && id !in known && id != 0
    requires forall r | r in issued :: issued[r].client in known
    ensures DaemonsSound(daemons[d := daemons[d].(conn := id)], known + {id}, issued)
  {
    DaemonsStaySound(daemons, known, issued, known + {id}, issued);
    forall e | e in daemons ensures daemons[e].conn != id {
      assert DaemonSound(daemons[e], known, issued);
    }
    assert DaemonSound(daemons[d], known, issued);
    ReplaceDaemon(daemons, known + {id}, issued, d, daemons[d].(conn := id));
  }

  lemma DeliverSound(daemons: map<DaemonId, Daemon>, known: set<Id>, issued: map<Id, Room>, d: DaemonId,
                     m: Message, engineOk: bool)
    requires DaemonsSound(daemons, known, issued) && d in daemons && Honest(issued, daemons[d].conn, m)
    ensures var dm := daemons[d];
      DaemonsSound(daemons[d := dm.(sessions := H.Handle(dm.cfg, dm.sessions, m, engineOk))], known, issued)
  {
    var dm := daemons[d];
    assert DaemonSound(dm, known, issued);
    HandleSound(dm, known, issued, m, engineOk);
    ReplaceDaemon(daemons, known, issued, d, dm.(sessions := H.Handle(dm.cfg, dm.sessions, m, engineOk)));
  }

  lemma ExpireSound(daemons: map<DaemonId, Daemon>, known: set<Id>, issued: map<Id, Room>, d: DaemonId, room: Id)
    requires DaemonsSound(daemons, known, issued) && d in daemons
    ensures DaemonsSound(daemons[d := daemons[d].(sessions := daemons[d].sessions - {room})], known, issued)
  {
    var dm := daemons[d];
    assert DaemonSound(dm, known, issued);
    H.Smaller(dm.sessions, dm.sessions - {room});
    ReplaceDaemon(daemons, known, issued, d, dm.(sessions := dm.sessions - {room}));
  }

  lemma ServeNextSound(s: System, op: Op)
    requires Sound(s) && Can(s, Serve(op))
    ensures Sound(Next(s, Serve(op)))
  {
    ServeSound(s.server, op, s.issued);
    DaemonsStaySound(s.daemons, s.server.all.Keys, s.issued,
                     Step(s.server, op).all.Keys, Issue(s.server, op, s.issued));
  }

  lemma OpenSound(s: Server, id: Id, issued: map<Id, Room>)
    requires ServerSound(s, issued) && Enabled(s, OpOpen(id))
    ensures ServerSound(Open(s, id), issued) && Open(s, id).all.Keys == s.all.Keys + {id}
  {
    StepInv(s, OpOpen(id));
    QuietSound(s, OpOpen(id), issued);
    assert Step(s, OpOpen(id)) == Open(s, id);
  }

  lemma DialNextSound(s: System, d: DaemonId, id: Id)
    requires Sound(s) && Can(s, Dial(d, id))
    ensures Sound(Next(s, Dial(d, id)))
  {
    OpenSound(s.server, id, s.issued);
    DialSound(s.daemons, s.server.all.Keys, s.issued, d, id);
  }

  lemma DeliverNextSound(s: System, d: DaemonId, engineOk: bool)
    requires Sound(s) && Can(s, Deliver(d, engineOk))
    ensures Sound(Next(s, Deliver(d, engineOk)))
  {
    var conn := s.daemons[d].conn;
    var queue := s.server.all[conn].queue;
    TailSound(s.server, conn, s.issued);
    assert Honest(s.issued, conn, queue[0]);
    DeliverSound(s.daemons, s.server.all.Keys, s.issued, d, queue[0], engineOk);
    assert Next(s, Deliver(d, engineOk)).server.all.Keys == s.server.all.Keys;
  }

  lemma NextSound(s: System, e: Event)
    requires Sound(s) && Can(s, e)
    ensures Sound(Next(s, e))
  {
    match e
    case Serve(op) => ServeNextSound(s, op);
    case Dial(d, id) => DialNextSound(s, d, id);
    case Deliver(d, engineOk) => DeliverNextSound(s, d, engineOk);
    case Expire(d, room) => ExpireSound(s.daemons, s.server.all.Keys, s.issued, d, room);
  }

  lemma {:induction false} EveryRunSound(s: System, es: seq<Event>)
    requires Sound(s) && IsRun(s, es)
    ensures Sound(After(s, es))
    decreases |es|
  {
    if es != [] {
      NextSound(s, es[0]);
      EveryRunSound(Next(s, es[0]), es[1..]);
    }
  }

  /** In every run, whoever connects to whom, no daemon with a session limit ever exceeds it. */
  lemma SessionLimit(s: System, es: seq<Event>, d: DaemonId)
    requires Start(s) && IsRun(s, es) && d in After(s, es).daemons
    requires After(s, es).daemons[d].cfg.maxSessions > 0
    ensures |After(s, es).daemons[d].sessions| <= After(s, es).daemons[d].cfg.maxSessions
  {
    EveryRunSound(s, es);
  }

  /**
   In every run, whoever connects to whom, a relayed message waiting for a daemon is handed
   to the session of its room if there is one, and that is the session of the client that
   sent it.
   */
  lemma RelayedToItsOwnSession(s: System, es: seq<Event>, d: DaemonId, i: nat)
    requires Start(s) && IsRun(s, es) && d in After(s, es).daemons
    requires After(s, es).daemons[d].conn in After(s, es).server.all
    requires i < |After(s, es).server.all[After(s, es).daemons[d].conn].queue|
    ensures var t := After(s, es);
      var dm := t.daemons[d];
      match t.server.all[dm.conn].queue[i]
      case Relayed(room, sender, _) =>
        H.Forwarded(dm.sessions, room) == if room in dm.sessions then Some(sender) else None
      case _ => true
  {
    EveryRunSound(s, es);
    var t := After(s, es);
    assert Honest(t.issued, t.daemons[d].conn, t.server.all[t.daemons[d].conn].queue[i]);
    assert DaemonSound(t.daemons[d], t.server.all.Keys, t.issued);
  }

  // ---- The allow list ----

  /** Every session is of a client that some entry of the allow list names. */
  ghost predicate Named(dm: Daemon) {
    forall r | r in dm.sessions ::
      exists i :: 0 <= i < |dm.cfg.allowList| && dm.cfg.allowList[i] == H.Client(dm.sessions[r])
  }

  /** A daemon whose allow list is not empty and does not let everyone in. */
  ghost predicate Selective(cfg: H.Config) {
    |cfg.allowList| > 0 && forall i | 0 <= i < |cfg.allowList| :: cfg.allowList[i] != H.Anyone
  }

  ghost predicate AllNamed(s: System) {
    forall d | d in s.daemons && Selective(s.daemons[d].cfg) :: Named(s.daemons[d])
  }

  lemma HandleNamed(dm: Daemon, m: Message, engineOk: bool)
    requires Selective(dm.cfg) && Named(dm)
    ensures Named(dm.(sessions := H.Handle(dm.cfg, dm.sessions, m, engineOk)))
  {
    match m
    case Connect(room, client) => H.OpensIff(dm.cfg, dm.sessions, room, client, engineOk);
    case PeerLeft(peer) =>
      forall r ensures r in H.Handle(dm.cfg, dm.sessions, m, engineOk) ==>
        r in dm.sessions && H.Handle(dm.cfg, dm.sessions, m, engineOk)[r] == dm.sessions[r]
      {
        H.EndsIff(dm.cfg, dm.sessions, peer, engineOk, r);
      }
    case _ =>
  }

  lemma NextNamed(s: System, e: Event)
    requires Wired(s.server) && AllNamed(s) && Can(s, e)
    ensures AllNamed(Next(s, e))
    ensures forall d | d in s.daemons :: d in Next(s, e).daemons && Next(s, e).daemons[d].cfg == s.daemons[d].cfg
  {
    if e.Deliver? && Selective(s.daemons[e.d].cfg) {
      HandleNamed(s.daemons[e.d], s.server.all[s.daemons[e.d].conn].queue[0], e.engineOk);
    }
  }

  lemma {:induction false} RunNamed(s: System, es: seq<Event>)
    requires Wired(s.server) && AllNamed(s) && IsRun(s, es)
    ensures AllNamed(After(s, es))
    decreases |es|
  {
    if es != [] {
      NextNamed(s, es[0]);
      RunNamed(Next(s, es[0]), es[1..]);
    }
  }

  /**
   In every run, a daemon whose allow list is not empty and does not let everyone in holds
   only sessions of clients that some entry of it names.
   */
  lemma OnlyNamedClients(s: System, es: seq<Event>, d: DaemonId, r: Id)
    requires Start(s) && IsRun(s, es) && d in After(s, es).daemons && r in After(s, es).daemons[d].sessions
    requires var list := After(s, es).daemons[d].cfg.allowList;
      |list| > 0 && forall i | 0 <= i < |list| :: list[i] != H.Anyone
    ensures var dm := After(s, es).daemons[d];
      exists i :: 0 <= i < |dm.cfg.allowList| && dm.cfg.allowList[i] == H.Client(dm.sessions[r])
  {
    RunNamed(s, es);
    assert Selective(After(s, es).daemons[d].cfg) && Named(After(s, es).daemons[d]);
  }

  // ---- Disciplined runs ----

  /**
   A successful connect comes from a peer that is no host and has no room, and reaches a
   registered host. Clients that connect at most once and only to registered hosts, which
   never connect themselves, do only that.
   */
  ghost predicate Disciplined(s: System, e: Event)
    requires Wired(s.server) && Can(s, e)
  {
    e.Serve? && e.op.OpConnect? && ConnectTarget(s.server, e.op.target).Some? ==>
      && s.server.all[e.op.p].role != HostRole
      && s.server.all[e.op.p].room == 0
      && s.server.all[ConnectTarget(s.server, e.op.target).value].role == HostRole
  }

  ghost predicate DisciplinedRun(s: System, es: seq<Event>)
    requires Wired(s.server) && IsRun(s, es)
    decreases |es|
  {
    es == [] || (Disciplined(s, es[0]) && DisciplinedRun(Next(s, es[0]), es[1..]))
  }

  /** Every room joins a host to a connected client whose room id it is. */
  ghost predicate Clients(s: Server)
    requires Wired(s)
  {
    forall r | r in s.rooms ::
      var c := s.rooms[r].client;
      && c in s.peers && s.all[c].room == r && s.all[c].role != HostRole && s.all[c].state != New
      && s.all[s.rooms[r].host].role == HostRole
  }

  ghost predicate Announced(queue: seq<Message>, from: nat, client: Id) {
    exists j | from <= j < |queue| :: queue[j] == PeerLeft(client)
  }

  /** For a connected peer, a queued Connect for a dropped room is followed by its client's PeerLeft. */
  ghost predicate Settled(s: Server) {
    forall h, i | h in s.peers && h in s.all && 0 <= i < |s.all[h].queue| ::
      SettledAt(s, s.all[h].queue, i)
  }

  ghost predicate SettledAt(s: Server, queue: seq<Message>, i: nat)
    requires i < |queue|
  {
    match queue[i]
    case Connect(room, client) => room in s.rooms || Announced(queue, i, client)
    case _ => true
  }

  /** A session opened on the current connection is a live room's, or its client's PeerLeft is queued. */
  ghost predicate Accounted(s: System) {
    forall d, r | d in s.daemons && r in s.daemons[d].sessions :: AccountedAt(s, s.daemons[d], r)
  }

  ghost predicate AccountedAt(s: System, dm: Daemon, r: Id)
    requires r in dm.sessions
  {
    dm.conn in s.server.peers && dm.conn in s.server.all && r in s.issued && s.issued[r].host == dm.conn ==>
      r in s.server.rooms || Announced(s.server.all[dm.conn].queue, 0, dm.sessions[r])
  }

  ghost predicate Good(s: System) {
    Sound(s) && Clients(s.server) && Settled(s.server) && Accounted(s)
  }

  lemma AnnouncedGrows(queue: seq<Message>, longer: seq<Message>, from: nat, client: Id)
    requires Announced(queue, from, client) && queue <= longer
    ensures Announced(longer, from, client)
  {
    var j :| from <= j < |queue| && queue[j] == PeerLeft(client);
    assert longer[j] == PeerLeft(client);
  }

  /** Queues that only grow, by messages that are no Connect or speak of a room that is there, stay settled. */
  lemma SettledGrows(s: Server, t: Server)
    requires Settled(s) && s.peers <= s.all.Keys && s.rooms.Keys <= t.rooms.Keys
    requires forall h | h in t.peers && h in t.all && h !in s.peers :: t.all[h].queue == []
    requires forall h | h in t.peers && h in t.all && h in s.peers :: s.all[h].queue <= t.all[h].queue
    requires forall h, i | h in t.peers && h in t.all && h in s.peers && |s.all[h].queue| <= i < |t.all[h].queue| ::
               t.all[h].queue[i].Connect? ==> t.all[h].queue[i].room in t.rooms
    ensures Settled(t)
  {
    forall h, i | h in t.peers && h in t.all && 0 <= i < |t.all[h].queue| ensures SettledAt(t, t.all[h].queue, i) {
      if i < |s.all[h].queue| {
        assert SettledAt(s, s.all[h].queue, i) && t.all[h].queue[i] == s.all[h].queue[i];
        match s.all[h].queue[i] {
          case Connect(room, client) =>
            if room !in s.rooms {
              AnnouncedGrows(s.all[h].queue, t.all[h].queue, i, client);
            }
          case _ =>
        }
      }
    }
  }

  lemma AccountedGrows(s: System, t: System)
    requires Accounted(s) && Sound(s) && t.daemons == s.daemons && s.server.rooms.Keys <= t.server.rooms.Keys
    requires forall r | r in s.issued :: r in t.issued && t.issued[r] == s.issued[r]
    requires forall h | h in t.server.peers && h in s.server.all ::
               h in s.server.peers && h in t.server.all && s.server.all[h].queue <= t.server.all[h].queue
    ensures Accounted(t)
  {
    forall d, r | d in t.daemons && r in t.daemons[d].sessions ensures AccountedAt(t, t.daemons[d], r) {
      var dm := s.daemons[d];
      assert AccountedAt(s, dm, r) && DaemonSound(dm, s.server.all.Keys, s.issued);
      if dm.conn in t.server.peers && dm.conn in t.server.all && s.issued[r].host == dm.conn && r !in s.server.rooms {
        AnnouncedGrows(s.server.all[dm.conn].queue, t.server.all[dm.conn].queue, 0, dm.sessions[r]);
      }
    }
  }

  ghost predicate Grew(before: seq<Message>, after: seq<Message>) {
    before <= after && forall i | |before| <= i < |after| :: !after[i].Connect? && !after[i].PeerLeft?
  }

  ghost predicate AllGrew(all: map<Id, Peer>, more: map<Id, Peer>) {
    && (forall h | h in more && h !in all :: more[h].queue == [])
    && (forall h | h in all :: h in more && Grew(all[h].queue, more[h].queue))
  }

  lemma PutGrew(all: map<Id, Peer>, id: Id, p: Peer)
    requires if id in all then Grew(all[id].queue, p.queue) else p.queue == []
    ensures AllGrew(all, all[id := p])
  {
  }

  lemma RegisterGrew(s: Server, p: Id, reg: Option<Registration>)
    requires p in s.all
    ensures AllGrew(s.all, Register(s, p, reg).all)
  {
    var t := Register(s, p, reg);
    assert t.all == s.all[p := t.all[p]];
    PutGrew(s.all, p, t.all[p]);
  }

  lemma ListGrew(s: Server, p: Id)
    requires Wired(s) && p in s.all
    ensures AllGrew(s.all, ListHosts(s, p).all)
  {
    var t := ListHosts(s, p);
    assert t.all == s.all[p := t.all[p]];
    PutGrew(s.all, p, t.all[p]);
  }

  lemma RelayGrew(s: Server, p: Id, body: string)
    requires Wired(s) && p in s.all
    ensures AllGrew(s.all, Relay(s, p, body).all)
  {
    var t := Relay(s, p, body);
    var reader := if s.all[p].room in s.rooms then Other(s.rooms[s.all[p].room], p) else p;
    assert t.all == s.all[reader := t.all[reader]];
    PutGrew(s.all, reader, t.all[reader]);
  }

  /** A server step other than connect and leave sends one message at most, and no Connect or PeerLeft. */
  lemma QuietQueues(s: Server, op: Op)
    requires Wired(s) && Enabled(s, op) && !op.OpConnect? && !op.OpLeave?
    ensures var t := Step(s, op);
      && AllGrew(s.all, t.all)
      && (forall h | h in t.peers && h in s.all :: h in s.peers)
  {
    match op
    case OpOpen(id) => PutGrew(s.all, id, Step(s, op).all[id]);
    case OpRegister(p, reg) => RegisterGrew(s, p, reg);
    case OpUpdate(p, features) =>
    case OpList(p) => ListGrew(s, p);
    case OpRelay(p, body) => RelayGrew(s, p, body);
  }

  /** Such a step makes no host of a peer that is past its first request, and unmakes none. */
  lemma QuietRoles(s: Server, op: Op)
    requires Wired(s) && Enabled(s, op) && !op.OpConnect? && !op.OpLeave?
    ensures var t := Step(s, op);
      forall p | p in s.all ::
        && p in t.all && (s.all[p].role == HostRole ==> t.all[p].role == HostRole)
        && (s.all[p].state != New ==>
              t.all[p].state != New && (t.all[p].role == HostRole ==> s.all[p].role == HostRole))
  {
    match op
    case OpOpen(id) =>
    case OpRegister(p, reg) =>
    case OpUpdate(p, features) =>
    case OpList(p) =>
    case OpRelay(p, body) =>
  }

  lemma ClientsStay(s: Server, t: Server)
    requires Wired(s) && Wired(t) && Clients(s) && t.rooms == s.rooms && s.peers <= t.peers
    requires forall p | p in s.all ::
      && p in t.all && t.all[p].room == s.all[p].room
      && (s.all[p].role == HostRole ==> t.all[p].role == HostRole)
      && (s.all[p].state != New ==> t.all[p].state != New && (t.all[p].role == HostRole ==> s.all[p].role == HostRole))
    ensures Clients(t)
  {
  }

  lemma QuietClients(s: Server, op: Op)
    requires Inv(s) && Clients(s) && Enabled(s, op) && !op.OpConnect? && !op.OpLeave?
    ensures Clients(Step(s, op))
  {
    QuietEffect(s, op);
    QuietRoles(s, op);
    ClientsStay(s, Step(s, op));
  }

  lemma QuietGood(s: System, op: Op)
    requires Good(s) && Can(s, Serve(op)) && !op.OpConnect? && !op.OpLeave?
    ensures Good(Next(s, Serve(op)))
  {
    var t := Next(s, Serve(op));
    NextSound(s, Serve(op));
    QuietEffect(s.server, op);
    QuietQueues(s.server, op);
    QuietClients(s.server, op);
    SettledGrows(s.server, t.server);
    AccountedGrows(s, t);
  }

  // -- Connect --

  lemma ConnectedClients(s: Server, t: Server, p: Id, h: Id, room: Id)
    requires Wired(s) && Wired(t) && Clients(s) && p in s.peers && h in s.all && room != 0 && room !in s.rooms
    requires s.all[p].role != HostRole && s.all[p].room == 0 && s.all[h].role == HostRole
    requires t.peers == s.peers && t.all.Keys == s.all.Keys && t.rooms == s.rooms[room := Room(h, p)]
    requires forall id | id in s.all && id != h && id != p :: t.all[id] == s.all[id]
    requires t.all[p].room == room && t.all[p].state == InRoom && t.all[p].role == AsClient(s.all[p]).role
    requires t.all[h].role == HostRole
    requires 0 !in s.rooms
    ensures Clients(t)
  {
  }

  lemma ConnectGood(s: System, op: Op)
    requires Good(s) && op.OpConnect? && Can(s, Serve(op)) && Disciplined(s, Serve(op))
    ensures Good(Next(s, Serve(op)))
  {
    var t := Next(s, Serve(op));
    NextSound(s, Serve(op));
    match ConnectTarget(s.server, op.target) {
      case None =>
        ConnectFails(s.server, op.p, op.target, op.room);
        FailedGood(s, t, op.p);
      case Some(h) =>
        ConnectEffect(s.server, op.p, op.target, op.room, h);
        ConnectedClients(s.server, t.server, op.p, h, op.room);
        ConnectedGood(s, t, op.p, h, op.room);
    }
  }

  lemma FailedGood(s: System, t: System, p: Id)
    requires Good(s) && Sound(t) && p in s.server.peers && p in t.server.all
    requires t == s.(server := s.server.(all := s.server.all[p := t.server.all[p]]))
    requires t.server.all[p].(role := NoRole, queue := []) == s.server.all[p].(role := NoRole, queue := [])
    requires t.server.all[p].role == s.server.all[p].role
             || (s.server.all[p].role == NoRole && t.server.all[p].role == ClientRole)
    requires exists e :: t.server.all[p].queue == s.server.all[p].queue + [Error(e)]
    ensures Good(t)
  {
    SettledGrows(s.server, t.server);
    AccountedGrows(s, t);
  }

  lemma ConnectedSettled(s: Server, t: Server, p: Id, h: Id, room: Id)
    requires Settled(s) && s.peers <= s.all.Keys && h != p && p in s.all && h in s.all
    requires t.peers == s.peers && t.all.Keys == s.all.Keys && t.rooms == s.rooms[room := Room(h, p)]
    requires forall id | id in s.all && id != h && id != p :: t.all[id] == s.all[id]
    requires t.all[h].queue == s.all[h].queue + [Connect(room, p)]
    requires exists m :: t.all[p].queue == s.all[p].queue + [m] && !m.Connect?
    ensures Settled(t)
    ensures forall id | id in s.all :: s.all[id].queue <= t.all[id].queue
  {
    SettledGrows(s, t);
  }

  lemma ConnectedGood(s: System, t: System, p: Id, h: Id, room: Id)
    requires Good(s) && Sound(t) && Clients(t.server) && p in s.server.peers && h in s.server.all && h != p
    requires room !in s.issued && t.daemons == s.daemons && t.issued == s.issued[room := Room(h, p)]
    requires t.server.peers == s.server.peers && t.server.all.Keys == s.server.all.Keys
    requires t.server.rooms == s.server.rooms[room := Room(h, p)]
    requires forall id | id in s.server.all && id != h && id != p :: t.server.all[id] == s.server.all[id]
    requires t.server.all[h].queue == s.server.all[h].queue + [Connect(room, p)]
    requires exists m :: t.server.all[p].queue == s.server.all[p].queue + [m] && !m.Connect?
    ensures Good(t)
  {
    ConnectedSettled(s.server, t.server, p, h, room);
    AccountedGrows(s, t);
  }

  // -- Leave --

  /** A room a departure drops has the leaver as client and tells its host, if the host stays connected. */
  lemma DroppedRoom(s: Server, p: Id, r: Id)
    requires Inv(s) && Clients(s) && p in s.peers && r in s.rooms && r !in Leave(s, p).rooms
    ensures var h, t := s.rooms[r].host, Leave(s, p);
      h in t.peers ==> s.rooms[r].client == p && h in s.all && t.all[h].queue == s.all[h].queue + [PeerLeft(p)]
  {
    LeaveEffect(s, p);
    LeaveQueues(s, p);
    LeaveRoomEffect(s, p);
    assert Member(s.rooms[r], p);
  }

  lemma LeaveClients(s: Server, p: Id)
    requires Inv(s) && Clients(s) && p in s.peers
    ensures Clients(Leave(s, p))
  {
    LeaveEffect(s, p);
    LeaveQueues(s, p);
    if s.all[p].room in s.rooms {
      LeaveRoomEffect(s, p);
    }
  }

  lemma LeaveSettled(s: Server, p: Id, issued: map<Id, Room>)
    requires ServerSound(s, issued) && Clients(s) && Settled(s) && p in s.peers
    ensures Settled(Leave(s, p))
  {
    var t := Leave(s, p);
    LeaveEffect(s, p);
    LeaveQueues(s, p);
    forall h, i | h in t.peers && h in t.all && 0 <= i < |t.all[h].queue| ensures SettledAt(t, t.all[h].queue, i) {
      if i < |s.all[h].queue| && s.all[h].queue[i].Connect? {
        LeaveSettledAt(s, p, issued, h, i);
      }
    }
  }

  lemma LeaveSettledAt(s: Server, p: Id, issued: map<Id, Room>, h: Id, i: nat)
    requires ServerSound(s, issued) && Clients(s) && Settled(s) && p in s.peers
    requires h in s.peers && h != p && i < |s.all[h].queue| && s.all[h].queue[i].Connect?
    ensures var t := Leave(s, p); h in t.all && i < |t.all[h].queue| && SettledAt(t, t.all[h].queue, i)
  {
    var t := Leave(s, p);
    var room, client := s.all[h].queue[i].room, s.all[h].queue[i].clientId;
    LeaveEffect(s, p);
    LeaveQueues(s, p);
    assert t.all[h].queue[i] == s.all[h].queue[i];
    assert SettledAt(s, s.all[h].queue, i) && Honest(issued, h, s.all[h].queue[i]);
    if room !in s.rooms {
      AnnouncedGrows(s.all[h].queue, t.all[h].queue, i, client);
    } else if room !in t.rooms {
      DroppedRoom(s, p, room);
      assert t.all[h].queue[|s.all[h].queue|] == PeerLeft(client);
    }
  }

  lemma LeaveAccountedAt(s: System, p: Id, dm: Daemon, r: Id)
    requires Good(s) && p in s.server.peers && r in dm.sessions && AccountedAt(s, dm, r)
    requires DaemonSound(dm, s.server.all.Keys, s.issued)
    ensures AccountedAt(s.(server := Leave(s.server, p)), dm, r)
  {
    var t := Leave(s.server, p);
    var h := dm.conn;
    LeaveEffect(s.server, p);
    LeaveQueues(s.server, p);
    if h in t.peers && s.issued[r].host == h {
      if r !in s.server.rooms {
        AnnouncedGrows(s.server.all[h].queue, t.all[h].queue, 0, dm.sessions[r]);
      } else if r !in t.rooms {
        DroppedRoom(s.server, p, r);
        assert t.all[h].queue[|s.server.all[h].queue|] == PeerLeft(dm.sessions[r]);
      }
    }
  }

  lemma LeaveGood(s: System, p: Id)
    requires Good(s) && Can(s, Serve(OpLeave(p)))
    ensures Good(Next(s, Serve(OpLeave(p))))
  {
    NextSound(s, Serve(OpLeave(p)));
    LeaveClients(s.server, p);
    LeaveSettled(s.server, p, s.issued);
    forall d, r | d in s.daemons && r in s.daemons[d].sessions
      ensures AccountedAt(s.(server := Leave(s.server, p)), s.daemons[d], r)
    {
      assert AccountedAt(s, s.daemons[d], r) && DaemonSound(s.daemons[d], s.server.all.Keys, s.issued);
      LeaveAccountedAt(s, p, s.daemons[d], r);
    }
  }

  // -- The daemons' own steps --

  lemma DialGood(s: System, d: DaemonId, id: Id)
    requires Good(s) && Can(s, Dial(d, id))
    ensures Good(Next(s, Dial(d, id)))
  {
    var t := Next(s, Dial(d, id));
    NextSound(s, Dial(d, id));
    QuietClients(s.server, OpOpen(id));
    SettledGrows(s.server, t.server);
    forall e, r | e in t.daemons && r in t.daemons[e].sessions ensures AccountedAt(t, t.daemons[e], r) {
      assert AccountedAt(s, s.daemons[e], r) && DaemonSound(s.daemons[e], s.server.all.Keys, s.issued);
    }
  }

  lemma TailAnnounced(queue: seq<Message>, from: nat, client: Id)
    requires queue != [] && Announced(queue, from + 1, client)
    ensures Announced(queue[1..], from, client)
  {
    var j :| from + 1 <= j < |queue| && queue[j] == PeerLeft(client);
    assert queue[1..][j - 1] == PeerLeft(client);
  }

  lemma TailSettled(s: Server, p: Id)
    requires Settled(s) && p in s.all && s.all[p].queue != []
    ensures Settled(Put(s, p, s.all[p].(queue := s.all[p].queue[1..])))
  {
    var t := Put(s, p, s.all[p].(queue := s.all[p].queue[1..]));
    forall h, i | h in t.peers && h in t.all && 0 <= i < |t.all[h].queue| ensures SettledAt(t, t.all[h].queue, i) {
      var k := if h == p then i + 1 else i;
      assert SettledAt(s, s.all[h].queue, k) && t.all[h].queue[i] == s.all[h].queue[k];
      if h == p && s.all[h].queue[k].Connect? && s.all[h].queue[k].room !in s.rooms {
        assert Announced(s.all[h].queue, k, s.all[h].queue[k].clientId);
        TailAnnounced(s.all[h].queue, i, s.all[h].queue[k].clientId);
      }
    }
  }

  /** Handling the first message of the queue keeps every session of the reading daemon accounted for. */
  lemma DeliverAccountedAt(s: System, d: DaemonId, engineOk: bool, r: Id)
    requires Good(s) && Can(s, Deliver(d, engineOk))
    requires r in Next(s, Deliver(d, engineOk)).daemons[d].sessions
    ensures AccountedAt(Next(s, Deliver(d, engineOk)), Next(s, Deliver(d, engineOk)).daemons[d], r)
  {
    var t := Next(s, Deliver(d, engineOk));
    var dm, queue := s.daemons[d], s.server.all[s.daemons[d].conn].queue;
    assert Honest(s.issued, dm.conn, queue[0]);
    if dm.conn in t.server.peers && s.issued[r].host == dm.conn && r !in s.server.rooms {
      var client := t.daemons[d].sessions[r];
      assert Announced(queue, 1, client) by {
        if r in dm.sessions && client == dm.sessions[r] && queue[0] != Connect(r, client) {
          assert AccountedAt(s, dm, r);
          var j :| 0 <= j < |queue| && queue[j] == PeerLeft(client);
          assert j != 0;
        } else {
          assert queue[0] == Connect(r, client);
          assert SettledAt(s.server, queue, 0);
          var j :| 0 <= j < |queue| && queue[j] == PeerLeft(client);
        }
      }
      TailAnnounced(queue, 0, client);
    }
  }

  lemma DeliverAccounted(s: System, d: DaemonId, engineOk: bool)
    requires Good(s) && Can(s, Deliver(d, engineOk))
    ensures Accounted(Next(s, Deliver(d, engineOk)))
  {
    var t := Next(s, Deliver(d, engineOk));
    forall e, r | e in t.daemons && r in t.daemons[e].sessions ensures AccountedAt(t, t.daemons[e], r) {
      if e == d {
        DeliverAccountedAt(s, d, engineOk, r);
      } else {
        assert AccountedAt(s, s.daemons[e], r);
      }
    }
  }

  lemma DeliverGood(s: System, d: DaemonId, engineOk: bool)
    requires Good(s) && Can(s, Deliver(d, engineOk))
    ensures Good(Next(s, Deliver(d, engineOk)))
  {
    NextSound(s, Deliver(d, engineOk));
    TailSettled(s.server, s.daemons[d].conn);
    DeliverAccounted(s, d, engineOk);
  }

  lemma ExpireGood(s: System, d: DaemonId, room: Id)
    requires Good(s) && Can(s, Expire(d, room))
    ensures Good(Next(s, Expire(d, room)))
  {
    var t := Next(s, Expire(d, room));
    NextSound(s, Expire(d, room));
    forall e, r | e in t.daemons && r in t.daemons[e].sessions ensures AccountedAt(t, t.daemons[e], r) {
      assert AccountedAt(s, s.daemons[e], r);
    }
  }

  lemma NextGood(s: System, e: Event)
    requires Good(s) && Can(s, e) && Disciplined(s, e)
    ensures Good(Next(s, e))
  {
    match e
    case Serve(op) =>
      if op.OpConnect? {
        ConnectGood(s, op);
      } else if op.OpLeave? {
        LeaveGood(s, op.p);
      } else {
        QuietGood(s, op);
      }
    case Dial(d, id) => DialGood(s, d, id);
    case Deliver(d, engineOk) => DeliverGood(s, d, engineOk);
    case Expire(d, room) => ExpireGood(s, d, room);
  }

  lemma {:induction false} DisciplinedRunGood(s: System, es: seq<Event>)
    requires Good(s) && IsRun(s, es) && DisciplinedRun(s, es)
    ensures Good(After(s, es))
    decreases |es|
  {
    if es != [] {
      NextGood(s, es[0]);
      DisciplinedRunGood(Next(s, es[0]), es[1..]);
    }
  }

  /**
   In every disciplined run, each session a connected daemon opened on its current
   connection is either a live room of exactly that host and that client, the client being
   connected, or has its client's PeerLeft still queued for the daemon.
   */
  lemma SessionsAccountedFor(s: System, es: seq<Event>, d: DaemonId, r: Id)
    requires Start(s) && IsRun(s, es) && DisciplinedRun(s, es)
    requires d in After(s, es).daemons && r in After(s, es).daemons[d].sessions
    ensures var t := After(s, es);
      var dm := t.daemons[d];
      && r in t.issued && t.issued[r].client == dm.sessions[r]
      && (dm.conn in t.server.peers && t.issued[r].host == dm.conn ==>
            || (&& r in t.server.rooms && t.server.rooms[r] == Room(dm.conn, dm.sessions[r])
                && dm.sessions[r] in t.server.peers && t.server.all[dm.sessions[r]].room == r)
            || PeerLeft(dm.sessions[r]) in t.server.all[dm.conn].queue)
  {
    DisciplinedRunGood(s, es);
    var t := After(s, es);
    assert AccountedAt(t, t.daemons[d], r) && DaemonSound(t.daemons[d], t.server.all.Keys, t.issued);
  }

  /** So a connected daemon with nothing queued holds, of the current connection, only sessions of connected clients. */
  lemma DrainedDaemonHoldsNoDepartedClient(s: System, es: seq<Event>, d: DaemonId, r: Id)
    requires Start(s) && IsRun(s, es) && DisciplinedRun(s, es)
    requires d in After(s, es).daemons && r in After(s, es).daemons[d].sessions
    requires var t := After(s, es);
      var dm := t.daemons[d];
      dm.conn in t.server.peers && t.server.all[dm.conn].queue == [] && r in t.issued && t.issued[r].host == dm.conn
    ensures var t := After(s, es);
      var c := t.daemons[d].sessions[r];
      c in t.server.peers && r in t.server.rooms && t.server.rooms[r] == Room(t.daemons[d].conn, c)
  {
    SessionsAccountedFor(s, es, d, r);
  }

  // ---- Clients that connect once ----

  /**
   Successful connects come from peers that are no hosts and have not connected before, and reach
   registered hosts.
   */
  ghost predicate OnceRun(s: System, es: seq<Event>, done: set<Id>)
    requires Wired(s.server) && IsRun(s, es)
    decreases |es|
  {
    es == [] ||
    var e := es[0];
    if e.Serve? && e.op.OpConnect? && ConnectTarget(s.server, e.op.target).Some? then
      && e.op.p !in done && s.server.all[e.op.p].role != HostRole
      && s.server.all[ConnectTarget(s.server, e.op.target).value].role == HostRole
      && OnceRun(Next(s, e), es[1..], done + {e.op.p})
    else OnceRun(Next(s, e), es[1..], done)
  }

  /** Only hosts and peers that have connected have a room id. */
  ghost predicate RoomMeansDone(s: Server, done: set<Id>) {
    forall p | p in s.all && s.all[p].room != 0 && s.all[p].role != HostRole :: p in done
  }

  lemma ServeRoomMeansDone(s: Server, op: Op, done: set<Id>)
    requires Inv(s) && Enabled(s, op) && RoomMeansDone(s, done)
    requires op.OpConnect? && ConnectTarget(s, op.target).Some? ==>
               op.p in done && s.all[ConnectTarget(s, op.target).value].role == HostRole && s.all[op.p].role != HostRole
    ensures RoomMeansDone(Step(s, op), done)
  {
    match op
    case OpConnect(p, target, room) =>
      if ConnectTarget(s, target).Some? {
        ConnectEffect(s, p, target, room, ConnectTarget(s, target).value);
      } else {
        ConnectFails(s, p, target, room);
      }
    case OpLeave(p) =>
      LeaveEffect(s, p);
      LeaveQueues(s, p);
      if s.all[p].room in s.rooms {
        LeaveRoomEffect(s, p);
      }
    case _ =>
      QuietEffect(s, op);
      QuietRoles(s, op);
  }

  /** A run in which each client connects at most once, to a registered host, and no host connects, is disciplined. */
  lemma {:induction false} ConnectingOnceIsDisciplined(s: System, es: seq<Event>, done: set<Id>)
    requires Sound(s) && IsRun(s, es) && OnceRun(s, es, done) && RoomMeansDone(s.server, done)
    ensures DisciplinedRun(s, es)
    decreases |es|
  {
    if es != [] {
      var e := es[0];
      var joins := e.Serve? && e.op.OpConnect? && ConnectTarget(s.server, e.op.target).Some?;
      var next := if joins then done + {e.op.p} else done;
      NextSound(s, e);
      match e {
        case Serve(op) => ServeRoomMeansDone(s.server, op, next);
        case Dial(d, id) => ServeRoomMeansDone(s.server, OpOpen(id), done);
        case _ =>
      }
      ConnectingOnceIsDisciplined(Next(s, e), es[1..], next);
    }
  }

  // ---- Draining ----

  /** Delivering n messages in a row. */
  function Deliveries(d: DaemonId, oks: seq<bool>): seq<Event> {
    seq(|oks|, i requires 0 <= i < |oks| => Deliver(d, oks[i]))
  }

  /** The sessions d opened on its current connection are live rooms of connected clients. */
  ghost predicate SessionsLive(s: System, d: DaemonId)
    requires d in s.daemons
  {
    var dm := s.daemons[d];
    forall r | r in dm.sessions && r in s.issued && s.issued[r].host == dm.conn ::
      r in s.server.rooms && s.server.rooms[r] == Room(dm.conn, dm.sessions[r]) && dm.sessions[r] in s.server.peers
  }

  lemma NothingQueued(s: System, d: DaemonId)
    requires Good(s) && d in s.daemons && s.daemons[d].conn in s.server.peers
    requires s.server.all[s.daemons[d].conn].queue == []
    ensures SessionsLive(s, d)
  {
    var dm := s.daemons[d];
    forall r | r in dm.sessions && r in s.issued && s.issued[r].host == dm.conn
      ensures r in s.server.rooms && s.server.rooms[r] == Room(dm.conn, dm.sessions[r])
              && dm.sessions[r] in s.server.peers
    {
      assert AccountedAt(s, dm, r) && DaemonSound(dm, s.server.all.Keys, s.issued);
    }
  }

  lemma {:induction false} DeliveriesRun(s: System, d: DaemonId, oks: seq<bool>)
    requires Wired(s.server) && d in s.daemons && s.daemons[d].conn in s.server.all
    requires |oks| == |s.server.all[s.daemons[d].conn].queue|
    ensures var es, conn := Deliveries(d, oks), s.daemons[d].conn;
      && IsRun(s, es) && DisciplinedRun(s, es)
      && After(s, es).server == Put(s.server, conn, s.server.all[conn].(queue := []))
      && d in After(s, es).daemons && After(s, es).daemons[d].conn == conn
    decreases |oks|
  {
    var conn := s.daemons[d].conn;
    if oks == [] {
      assert Deliveries(d, oks) == [];
      assert Put(s.server, conn, s.server.all[conn].(queue := [])) == s.server;
    } else {
      DeliveriesRun(Next(s, Deliver(d, oks[0])), d, oks[1..]);
      assert Deliveries(d, oks)[1..] == Deliveries(d, oks[1..]);
    }
  }

  /**
   After any disciplined run, a connected daemon can read all that is queued for it; then,
   whatever the engines did, its sessions of the current connection are live rooms of
   connected clients, and the server changed in nothing but that queue.
   */
  lemma Draining(s: System, es: seq<Event>, d: DaemonId, oks: seq<bool>)
    requires Start(s) && IsRun(s, es) && DisciplinedRun(s, es)
    requires d in After(s, es).daemons && After(s, es).daemons[d].conn in After(s, es).server.peers
    requires |oks| == |After(s, es).server.all[After(s, es).daemons[d].conn].queue|
    ensures var t := After(s, es);
      && IsRun(t, Deliveries(d, oks))
      && var u := After(t, Deliveries(d, oks));
      && u.server == Put(t.server, t.daemons[d].conn, t.server.all[t.daemons[d].conn].(queue := []))
      && d in u.daemons && SessionsLive(u, d)
  {
    DisciplinedRunGood(s, es);
    var t := After(s, es);
    DeliveriesRun(t, d, oks);
    DisciplinedRunGood(t, Deliveries(d, oks));
    NothingQueued(After(t, Deliveries(d, oks)), d);
  }
}
