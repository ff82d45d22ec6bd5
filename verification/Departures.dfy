/**
 What a client's departure does to a daemon's sessions: exactly when a session survives it,
 once the daemon has read everything queued for it.
 */
module Departures {
  import opened Options
  import opened SignalModel
  import opened SignalInvariants
  import Y = SessionSystem
  import H = HostModel

  // ---- A queued PeerLeft speaks of a peer that has left ----

  ghost predicate Departed(s: Server, m: Message) {
    m.PeerLeft? ==> m.peerId in s.all && m.peerId !in s.peers
  }

  ghost predicate Departures(s: Server) {
    forall q, i | q in s.all && 0 <= i < |s.all[q].queue| :: Departed(s, s.all[q].queue[i])
  }

  /** Steps that bring nobody back and queue no false PeerLeft keep this. */
  lemma DeparturesGrow(s: Server, t: Server)
    requires Departures(s) && s.all.Keys <= t.all.Keys && forall p | p in t.peers && p in s.all :: p in s.peers
    requires forall q | q in t.all && q !in s.all :: t.all[q].queue == []
    requires forall q | q in s.all :: s.all[q].queue <= t.all[q].queue
    requires forall q, i | q in s.all && |s.all[q].queue| <= i < |t.all[q].queue| :: Departed(t, t.all[q].queue[i])
    ensures Departures(t)
  {
    forall q, i | q in t.all && 0 <= i < |t.all[q].queue| ensures Departed(t, t.all[q].queue[i]) {
      if q in s.all && i < |s.all[q].queue| {
        assert t.all[q].queue[i] == s.all[q].queue[i] && Departed(s, s.all[q].queue[i]);
      }
    }
  }

  lemma QuietDepartures(s: Server, op: Op)
    requires Wired(s) && Departures(s) && Enabled(s, op) && !op.OpConnect? && !op.OpLeave?
    ensures Departures(Step(s, op))
  {
    var t := Step(s, op);
    Y.QuietQueues(s, op);
    forall q, i | q in s.all && |s.all[q].queue| <= i < |t.all[q].queue| ensures Departed(t, t.all[q].queue[i]) {
      assert Y.Grew(s.all[q].queue, t.all[q].queue);
    }
    forall q | q in s.all ensures s.all[q].queue <= t.all[q].queue {
      assert Y.Grew(s.all[q].queue, t.all[q].queue);
    }
    DeparturesGrow(s, t);
  }

  lemma ConnectDepartures(s: Server, p: Id, target: Option<Target>, room: Id)
    requires Wired(s) && Departures(s) && p in s.peers && room !in s.rooms
    ensures Departures(ConnectPeer(s, p, target, room))
  {
    var t := ConnectPeer(s, p, target, room);
    match ConnectTarget(s, target) {
      case None => ConnectFails(s, p, target, room);
      case Some(h) => ConnectEffect(s, p, target, room, h);
    }
    ConnectQueues(s, p, target, room);
    forall q, i | q in s.all && |s.all[q].queue| <= i < |t.all[q].queue| ensures Departed(t, t.all[q].queue[i]) {
      assert OnlyAdded(s.all[q].queue, t.all[q].queue);
    }
    forall q | q in s.all ensures s.all[q].queue <= t.all[q].queue {
      assert OnlyAdded(s.all[q].queue, t.all[q].queue);
    }
    DeparturesGrow(s, t);
  }

  /** Messages were only added, and none that a peer has left. */
  ghost predicate OnlyAdded(before: seq<Message>, after: seq<Message>) {
    before <= after && forall i | |before| <= i < |after| :: !after[i].PeerLeft?
  }

  /** A connect request only adds such messages. */
  lemma ConnectQueues(s: Server, p: Id, target: Option<Target>, room: Id)
    requires Wired(s) && p in s.peers && room !in s.rooms
    ensures var t := ConnectPeer(s, p, target, room);
      t.all.Keys == s.all.Keys && forall q | q in s.all :: OnlyAdded(s.all[q].queue, t.all[q].queue)
  {
    var t := ConnectPeer(s, p, target, room);
    match ConnectTarget(s, target)
    case None =>
      ConnectFails(s, p, target, room);
      forall q | q in s.all ensures OnlyAdded(s.all[q].queue, t.all[q].queue) {
        assert q != p ==> t.all[q].queue == s.all[q].queue;
      }
    case Some(h) =>
      ConnectEffect(s, p, target, room, h);
      ConnectedQueues(s.all, t.all, p, h, room, s.all[h].info);
  }

  lemma ConnectedQueues(all: map<Id, Peer>, more: map<Id, Peer>, p: Id, h: Id, room: Id, info: HostInfo)
    requires more.Keys == all.Keys && p in all && h in all
    requires forall id | id in all && id != h && id != p :: more[id] == all[id]
    requires h != p ==> more[h].queue == all[h].queue + [Connect(room, p)]
    requires more[p].queue == all[p].queue + [RoomReady(room, h, info)] + (if h == p then [Connect(room, p)] else [])
    ensures forall q | q in all :: OnlyAdded(all[q].queue, more[q].queue)
  {
  }

  lemma LeaveDepartures(s: Server, p: Id)
    requires Wired(s) && Departures(s) && p in s.peers
    ensures Departures(Leave(s, p))
  {
    LeaveEffect(s, p);
    Y.LeaveQueues(s, p);
    DeparturesGrow(s, Leave(s, p));
  }

  lemma NextDepartures(s: Y.System, e: Y.Event)
    requires Wired(s.server) && Departures(s.server) && Y.Can(s, e)
    ensures Departures(Y.Next(s, e).server)
  {
    match e
    case Serve(op) =>
      match op {
        case OpConnect(p, target, room) => ConnectDepartures(s.server, p, target, room);
        case OpLeave(p) => LeaveDepartures(s.server, p);
        case _ => QuietDepartures(s.server, op);
      }
    case Dial(d, id) => QuietDepartures(s.server, OpOpen(id));
    case Deliver(d, _) => TailDepartures(s.server, s.daemons[d].conn);
    case Expire(d, room) =>
  }

  lemma TailDepartures(s: Server, p: Id)
    requires Departures(s) && p in s.all && s.all[p].queue != []
    ensures Departures(Put(s, p, s.all[p].(queue := s.all[p].queue[1..])))
  {
    var t := Put(s, p, s.all[p].(queue := s.all[p].queue[1..]));
    forall q, i | q in t.all && 0 <= i < |t.all[q].queue| ensures Departed(t, t.all[q].queue[i]) {
      assert Departed(s, s.all[q].queue[if q == p then i + 1 else i]);
    }
  }

  /** In every run, nobody is told that a connected peer has left. */
  lemma {:induction false} NobodyIsSaidToHaveLeft(s: Y.System, es: seq<Y.Event>)
    requires Wired(s.server) && Departures(s.server) && Y.IsRun(s, es)
    ensures Departures(Y.After(s, es).server)
    decreases |es|
  {
    if es != [] {
      NextDepartures(s, es[0]);
      NobodyIsSaidToHaveLeft(Y.Next(s, es[0]), es[1..]);
    }
  }

  // ---- Reading a whole queue ----

  /** The table after reading messages in order; `oks` says of each whether an engine could be created. */
  function HandleAll(cfg: H.Config, t: H.Sessions, ms: seq<Message>, oks: seq<bool>): H.Sessions
    requires |ms| == |oks|
    decreases |ms|
  {
    if ms == [] then t else HandleAll(cfg, H.Handle(cfg, t, ms[0], oks[0]), ms[1..], oks[1..])
  }

  /** A message that neither announces that c has left nor gives room r to another. */
  predicate Spares(m: Message, r: Id, c: Id) {
    match m
    case Connect(room, client) => room == r ==> client == c
    case PeerLeft(p) => p != c
    case _ => true
  }

  lemma {:induction false} LastMessage(cfg: H.Config, t: H.Sessions, ms: seq<Message>, oks: seq<bool>, m: Message)
    requires |oks| == |ms| + 1
    ensures HandleAll(cfg, t, ms + [m], oks) == H.Handle(cfg, HandleAll(cfg, t, ms, oks[..|ms|]), m, oks[|ms|])
    decreases |ms|
  {
    if ms == [] {
      assert ms + [m] == [m] && [m][1..] == [];
    } else {
      assert (ms + [m])[0] == ms[0] && (ms + [m])[1..] == ms[1..] + [m];
      assert oks[1..][..|ms| - 1] == oks[..|ms|][1..];
      LastMessage(cfg, H.Handle(cfg, t, ms[0], oks[0]), ms[1..], oks[1..], m);
    }
  }

  /** The session of room r is client c's. */
  predicate Serves(t: H.Sessions, r: Id, c: Id) {
    r in t && t[r] == c
  }

  /** Message i of the queue opens a session for c in room r, the table having room for it by then. */
  ghost predicate Opens(cfg: H.Config, t: H.Sessions, ms: seq<Message>, oks: seq<bool>, i: nat, r: Id, c: Id)
    requires |ms| == |oks|
  {
    && i < |ms| && ms[i] == Connect(r, c) && oks[i] && H.Admits(cfg, c)
    && !H.Full(cfg, |HandleAll(cfg, t, ms[..i], oks[..i])|)
  }

  /**
   After reading messages none of which announces that c has left or gives room r to another,
   the session of r is c's exactly if it was before or one of them opens it.
   */
  lemma {:induction false} ServesAfterReading(cfg: H.Config, t: H.Sessions, ms: seq<Message>, oks: seq<bool>, r: Id,
                                              c: Id)
    requires |ms| == |oks|
    requires forall i | 0 <= i < |ms| :: Spares(ms[i], r, c)
    ensures Serves(HandleAll(cfg, t, ms, oks), r, c) <==> Serves(t, r, c) || exists i :: Opens(cfg, t, ms, oks, i, r, c)
    decreases |ms|
  {
    if ms != [] {
      var n := |ms| - 1;
      var before := HandleAll(cfg, t, ms[..n], oks[..n]);
      assert ms == ms[..n] + [ms[n]];
      LastMessage(cfg, t, ms[..n], oks, ms[n]);
      ServesAfterReading(cfg, t, ms[..n], oks[..n], r, c);
      assert Spares(ms[n], r, c);
      assert Serves(H.Handle(cfg, before, ms[n], oks[n]), r, c)
        <==> Serves(before, r, c) || Opens(cfg, t, ms, oks, n, r, c);
      OpensEarlier(cfg, t, ms, oks, n, r, c);
    }
  }

  /** Whether a message opens a session does not depend on later messages. */
  lemma OpensEarlier(cfg: H.Config, t: H.Sessions, ms: seq<Message>, oks: seq<bool>, n: nat, r: Id, c: Id)
    requires |ms| == |oks| == n + 1
    ensures (exists i :: Opens(cfg, t, ms, oks, i, r, c))
            <==> (exists i :: Opens(cfg, t, ms[..n], oks[..n], i, r, c)) || Opens(cfg, t, ms, oks, n, r, c)
  {
    forall i: nat | i < n
      ensures Opens(cfg, t, ms[..n], oks[..n], i, r, c) <==> Opens(cfg, t, ms, oks, i, r, c)
    {
      assert ms[..n][..i] == ms[..i] && oks[..n][..i] == oks[..i];
    }
    if i: nat :| i < n && Opens(cfg, t, ms, oks, i, r, c) {
      assert Opens(cfg, t, ms[..n], oks[..n], i, r, c);
    }
    if i: nat :| i < n && Opens(cfg, t, ms[..n], oks[..n], i, r, c) {
      assert Opens(cfg, t, ms, oks, i, r, c);
    }
  }

  /** The news that c has left, read last, ends every session of c's. */
  lemma ServesUnlessTold(cfg: H.Config, t: H.Sessions, ms: seq<Message>, told: bool, oks: seq<bool>, r: Id, c: Id)
    requires |oks| == |ms| + (if told then 1 else 0)
    ensures Serves(HandleAll(cfg, t, ms + (if told then [PeerLeft(c)] else []), oks), r, c)
            <==> !told && Serves(HandleAll(cfg, t, ms, oks[..|ms|]), r, c)
  {
    if told {
      LastMessage(cfg, t, ms, oks, PeerLeft(c));
    } else {
      assert ms + [] == ms && oks[..|ms|] == oks;
    }
  }

  lemma {:induction false} DeliveriesHandleAll(s: Y.System, d: Y.DaemonId, oks: seq<bool>)
    requires Wired(s.server) && d in s.daemons && s.daemons[d].conn in s.server.all
    requires |oks| == |s.server.all[s.daemons[d].conn].queue|
    requires Y.IsRun(s, Y.Deliveries(d, oks))
    ensures var dm, t := s.daemons[d], Y.After(s, Y.Deliveries(d, oks));
      d in t.daemons && t.daemons[d].sessions == HandleAll(dm.cfg, dm.sessions, s.server.all[dm.conn].queue, oks)
    decreases |oks|
  {
    if oks == [] {
      assert Y.Deliveries(d, oks) == [];
    } else {
      assert Y.Deliveries(d, oks)[0] == Y.Deliver(d, oks[0]) && Y.Deliveries(d, oks)[1..] == Y.Deliveries(d, oks[1..]);
      DeliveriesHandleAll(Y.Next(s, Y.Deliver(d, oks[0])), d, oks[1..]);
    }
  }

  /**
   In a state a run can reach, what is queued for a daemon spares the sessions of a connected
   client, as long as the room is its own.
   */
  lemma QueueSpares(s: Y.System, d: Y.DaemonId, r: Id, c: Id, i: nat)
    requires Y.Sound(s) && Departures(s.server) && d in s.daemons && s.daemons[d].conn in s.server.all
    requires r in s.issued && s.issued[r].client == c && c in s.server.peers
    requires i < |s.server.all[s.daemons[d].conn].queue|
    ensures Spares(s.server.all[s.daemons[d].conn].queue[i], r, c)
  {
    var m := s.server.all[s.daemons[d].conn].queue[i];
    assert Y.Honest(s.issued, s.daemons[d].conn, m) && Departed(s.server, m);
  }

  /** No session and no queued Connect gives a room to anyone but the client it was issued to. */
  lemma OnlyTheClient(s: Y.System, d: Y.DaemonId, r: Id, c: Id, oks: seq<bool>)
    requires Y.Sound(s) && d in s.daemons && s.daemons[d].conn in s.server.all
    requires !(r in s.issued && s.issued[r].client == c)
    requires |oks| == |s.server.all[s.daemons[d].conn].queue|
    ensures var dm := s.daemons[d];
      && !Serves(dm.sessions, r, c)
      && !Serves(HandleAll(dm.cfg, dm.sessions, s.server.all[dm.conn].queue, oks), r, c)
      && forall i :: !Opens(dm.cfg, dm.sessions, s.server.all[dm.conn].queue, oks, i, r, c)
  {
    var dm := s.daemons[d];
    var queue := s.server.all[dm.conn].queue;
    assert Y.DaemonSound(dm, s.server.all.Keys, s.issued);
    forall i | 0 <= i < |queue| ensures queue[i] != Connect(r, c) {
      assert Y.Honest(s.issued, dm.conn, queue[i]);
    }
    NobodyServes(dm.cfg, dm.sessions, queue, oks, r, c);
  }

  lemma {:induction false} NobodyServes(cfg: H.Config, t: H.Sessions, ms: seq<Message>, oks: seq<bool>, r: Id, c: Id)
    requires |ms| == |oks| && !Serves(t, r, c)
    requires forall i | 0 <= i < |ms| :: ms[i] != Connect(r, c)
    ensures !Serves(HandleAll(cfg, t, ms, oks), r, c)
    decreases |ms|
  {
    if ms != [] {
      NobodyServes(cfg, H.Handle(cfg, t, ms[0], oks[0]), ms[1..], oks[1..], r, c);
    }
  }

  /** What the daemon holds for c once it has read its queue: the sessions it held, and those it opens. */
  lemma HeldOrOpened(s: Y.System, d: Y.DaemonId, r: Id, c: Id, oks: seq<bool>)
    requires Y.Sound(s) && Departures(s.server) && d in s.daemons && s.daemons[d].conn in s.server.all
    requires c in s.server.peers && |oks| == |s.server.all[s.daemons[d].conn].queue|
    ensures var dm := s.daemons[d];
      var queue := s.server.all[dm.conn].queue;
      Serves(HandleAll(dm.cfg, dm.sessions, queue, oks), r, c)
      <==> Serves(dm.sessions, r, c) || exists i :: Opens(dm.cfg, dm.sessions, queue, oks, i, r, c)
  {
    var dm := s.daemons[d];
    var queue := s.server.all[dm.conn].queue;
    if r in s.issued && s.issued[r].client == c {
      forall i | 0 <= i < |queue| ensures Spares(queue[i], r, c) {
        QueueSpares(s, d, r, c, i);
      }
      ServesAfterReading(dm.cfg, dm.sessions, queue, oks, r, c);
    } else {
      OnlyTheClient(s, d, r, c, oks);
    }
  }

  /** Whether client c is in a room whose other member is the daemon's current connection. */
  predicate Told(s: Y.System, d: Y.DaemonId, c: Id)
    requires d in s.daemons && c in s.server.all
  {
    var room := s.server.all[c].room;
    room in s.server.rooms && Other(s.server.rooms[room], c) == s.daemons[d].conn
  }

  /** The session table of d once a client has left and d has read all that is then queued for it. */
  ghost function LeftAndRead(t: Y.System, d: Y.DaemonId, c: Id, oks: seq<bool>): H.Sessions
    requires Wired(t.server) && c in t.server.peers && d in t.daemons
    requires Y.IsRun(Y.Next(t, Y.Serve(OpLeave(c))), Y.Deliveries(d, oks))
    requires d in Y.After(Y.Next(t, Y.Serve(OpLeave(c))), Y.Deliveries(d, oks)).daemons
  {
    Y.After(Y.Next(t, Y.Serve(OpLeave(c))), Y.Deliveries(d, oks)).daemons[d].sessions
  }

  lemma LeavesAndReads(t: Y.System, d: Y.DaemonId, c: Id, oks: seq<bool>)
    requires Wired(t.server) && c in t.server.peers && d in t.daemons && t.daemons[d].conn in t.server.all
    requires |oks| == |t.server.all[t.daemons[d].conn].queue| + (if Told(t, d, c) then 1 else 0)
    ensures Y.Can(t, Y.Serve(OpLeave(c)))
    ensures var u := Y.Next(t, Y.Serve(OpLeave(c)));
      Y.IsRun(u, Y.Deliveries(d, oks)) && d in Y.After(u, Y.Deliveries(d, oks)).daemons
    ensures var dm := t.daemons[d];
      LeftAndRead(t, d, c, oks)
      == HandleAll(dm.cfg, dm.sessions, t.server.all[dm.conn].queue
          + (if Told(t, d, c) then [PeerLeft(c)] else []), oks)
  {
    var dm := t.daemons[d];
    Y.LeaveQueues(t.server, c);
    var u := Y.Next(t, Y.Serve(OpLeave(c)));
    assert u.server.all[dm.conn].queue
        == t.server.all[dm.conn].queue + (if Told(t, d, c) then [PeerLeft(c)] else []);
    Y.DeliveriesRun(u, d, oks);
    DeliveriesHandleAll(u, d, oks);
  }

  /**
   In every run: when a client leaves, and a daemon then reads all that is queued for it,
   whatever the engines do, the daemon holds a session of that client if and only if the
   client was not, when it left, in a room with the daemon's current connection, and the
   session was there before or a Connect still queued opens it.
   */
  lemma SessionSurvivesIff(s: Y.System, es: seq<Y.Event>, d: Y.DaemonId, r: Id, c: Id, oks: seq<bool>)
    requires Y.Start(s) && Y.IsRun(s, es) && d in Y.After(s, es).daemons
    requires var t := Y.After(s, es);
      var conn := t.daemons[d].conn;
      && conn in t.server.all && c in t.server.peers
      && |oks| == |t.server.all[conn].queue| + (if Told(t, d, c) then 1 else 0)
    ensures Y.Can(Y.After(s, es), Y.Serve(OpLeave(c)))
    ensures var u := Y.Next(Y.After(s, es), Y.Serve(OpLeave(c)));
      Y.IsRun(u, Y.Deliveries(d, oks)) && d in Y.After(u, Y.Deliveries(d, oks)).daemons
    ensures var t := Y.After(s, es);
      var dm := t.daemons[d];
      var queue := t.server.all[dm.conn].queue;
      Serves(LeftAndRead(t, d, c, oks), r, c)
      <==> !Told(t, d, c)
           && (Serves(dm.sessions, r, c) || exists i :: Opens(dm.cfg, dm.sessions, queue, oks[..|queue|], i, r, c))
  {
    var t := Y.After(s, es);
    var dm := t.daemons[d];
    var queue := t.server.all[dm.conn].queue;
    Y.EveryRunSound(s, es);
    NobodyIsSaidToHaveLeft(s, es);
    LeavesAndReads(t, d, c, oks);
    ServesUnlessTold(dm.cfg, dm.sessions, queue, Told(t, d, c), oks, r, c);
    HeldOrOpened(t, d, r, c, oks[..|queue|]);
  }

  // ---- A session that survived stays ----

  /** A daemon that has read everything, and holds the session of a client that has left. */
  ghost predicate Stale(s: Y.System, d: Y.DaemonId, r: Id) {
    && Wired(s.server)
    && d in s.daemons && s.daemons[d].conn in s.server.peers && s.server.all[s.daemons[d].conn].queue == []
    && r in s.daemons[d].sessions && s.daemons[d].sessions[r] !in s.server.peers
  }

  /** Client c has left, room r of d serves it, and nothing queued for d says that it left. */
  ghost predicate Lingers(s: Y.System, d: Y.DaemonId, r: Id, c: Id) {
    && d in s.daemons && Serves(s.daemons[d].sessions, r, c)
    && c in s.server.all && c !in s.server.peers
    && (s.daemons[d].conn in s.server.all ==> PeerLeft(c) !in s.server.all[s.daemons[d].conn].queue)
  }

  /** The queues of a server step that is not c's departure say nothing new of it. */
  lemma NoNews(s: Server, op: Op, q: Id, c: Id)
    requires Wired(s) && Enabled(s, op) && op != OpLeave(c) && q in s.all
    ensures q in Step(s, op).all
    ensures PeerLeft(c) in Step(s, op).all[q].queue ==> PeerLeft(c) in s.all[q].queue
  {
    match op
    case OpConnect(p, target, room) =>
      ConnectQueues(s, p, target, room);
      assert OnlyAdded(s.all[q].queue, Step(s, op).all[q].queue);
    case OpLeave(p) => Y.LeaveQueues(s, p);
    case _ =>
      Y.QuietQueues(s, op);
      assert Y.Grew(s.all[q].queue, Step(s, op).all[q].queue);
  }

  /** Who has left does not come back. */
  lemma StaysAway(s: Server, op: Op, c: Id)
    requires Wired(s) && Enabled(s, op) && c in s.all && c !in s.peers
    ensures c in Step(s, op).all && c !in Step(s, op).peers
  {
    match op
    case OpConnect(p, target, room) =>
      match ConnectTarget(s, target) {
        case None => ConnectFails(s, p, target, room);
        case Some(h) => ConnectEffect(s, p, target, room, h);
      }
    case OpLeave(p) => LeaveEffect(s, p);
    case _ =>
      QuietEffect(s, op);
      Y.QuietQueues(s, op);
  }

  lemma ServeLingers(s: Y.System, op: Op, d: Y.DaemonId, r: Id, c: Id)
    requires Wired(s.server) && Lingers(s, d, r, c) && Y.Can(s, Y.Serve(op))
    requires s.daemons[d].conn in s.server.all || s.daemons[d].conn == 0
    requires 0 !in s.server.all
    ensures Lingers(Y.Next(s, Y.Serve(op)), d, r, c)
  {
    StaysAway(s.server, op, c);
    var conn := s.daemons[d].conn;
    if conn in s.server.all {
      NoNews(s.server, op, conn, c);
    } else {
      NoZero(s.server, op);
    }
  }

  lemma NoZero(s: Server, op: Op)
    requires Wired(s) && Enabled(s, op) && 0 !in s.all
    ensures 0 !in Step(s, op).all
  {
    match op
    case OpConnect(p, target, room) =>
      match ConnectTarget(s, target) {
        case None => ConnectFails(s, p, target, room);
        case Some(h) => ConnectEffect(s, p, target, room, h);
      }
    case OpLeave(p) => LeaveEffect(s, p);
    case _ =>
  }

  lemma DeliverLingers(s: Y.System, e: Y.DaemonId, ok: bool, d: Y.DaemonId, r: Id, c: Id)
    requires Y.Sound(s) && Lingers(s, d, r, c) && Y.Can(s, Y.Deliver(e, ok))
    ensures Lingers(Y.Next(s, Y.Deliver(e, ok)), d, r, c)
  {
    var conn := s.daemons[e].conn;
    var m := s.server.all[conn].queue[0];
    assert Y.Honest(s.issued, conn, m);
    assert Y.DaemonSound(s.daemons[d], s.server.all.Keys, s.issued);
    if e == d {
      assert m in s.server.all[conn].queue;
    }
  }

  lemma NextLingers(s: Y.System, e: Y.Event, d: Y.DaemonId, r: Id, c: Id)
    requires Y.Sound(s) && Lingers(s, d, r, c) && Y.Can(s, e) && e != Y.Expire(d, r)
    ensures Lingers(Y.Next(s, e), d, r, c)
  {
    assert Y.DaemonSound(s.daemons[d], s.server.all.Keys, s.issued);
    match e
    case Serve(op) => ServeLingers(s, op, d, r, c);
    case Dial(_, id) =>
    case Deliver(other, ok) => DeliverLingers(s, other, ok, d, r, c);
    case Expire(other, room) =>
  }

  lemma {:induction false} RunLingers(s: Y.System, es: seq<Y.Event>, d: Y.DaemonId, r: Id, c: Id)
    requires Y.Sound(s) && Lingers(s, d, r, c) && Y.IsRun(s, es) && Y.Expire(d, r) !in es
    ensures Lingers(Y.After(s, es), d, r, c)
    decreases |es|
  {
    if es != [] {
      NextLingers(s, es[0], d, r, c);
      Y.NextSound(s, es[0]);
      RunLingers(Y.Next(s, es[0]), es[1..], d, r, c);
    }
  }

  /** In every run: once a session is stale it stays in the table, whatever follows, until it expires there. */
  lemma StaleUntilItExpires(s: Y.System, es: seq<Y.Event>, more: seq<Y.Event>, d: Y.DaemonId, r: Id)
    requires Y.Start(s) && Y.IsRun(s, es) && Stale(Y.After(s, es), d, r)
    requires Y.IsRun(Y.After(s, es), more) && Y.Expire(d, r) !in more
    ensures var t := Y.After(Y.After(s, es), more);
      var c := Y.After(s, es).daemons[d].sessions[r];
      d in t.daemons && Serves(t.daemons[d].sessions, r, c) && c !in t.server.peers
  {
    Y.EveryRunSound(s, es);
    var t := Y.After(s, es);
    assert Y.DaemonSound(t.daemons[d], t.server.all.Keys, t.issued);
    RunLingers(t, more, d, r, t.daemons[d].sessions[r]);
  }
}
