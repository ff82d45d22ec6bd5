/**
 Runs from the start that leave a drained daemon holding a session of a client that has
 left: one in which the client had moved on to another host, and one in which the daemon
 had dialled again.
 */
module StaleSessions {
  import opened Options
  import opened SignalModel
  import opened SignalInvariants
  import Y = SessionSystem
  import opened Departures
  import H = HostModel

  lemma {:induction false} Extend(s: Y.System, es: seq<Y.Event>, e: Y.Event)
    requires Wired(s.server) && Y.IsRun(s, es) && Y.Can(Y.After(s, es), e)
    ensures Y.IsRun(s, es + [e]) && Y.After(s, es + [e]) == Y.Next(Y.After(s, es), e)
    decreases |es|
  {
    if es == [] {
      assert es + [e] == [e];
    } else {
      assert (es + [e])[0] == es[0] && (es + [e])[1..] == es[1..] + [e];
      Extend(Y.Next(s, es[0]), es[1..], e);
    }
  }

  /** One daemon, with the default limit and an open allow list. */
  const ALONE := Y.System(EMPTY, map[0 := Y.Daemon(H.Config(H.DEFAULT_MAX_SESSIONS, []), 0, map[])], map[])

  const CFG := H.Config(H.DEFAULT_MAX_SESSIONS, [])
  const HOST_A := Peer(HostRole, Registered, HostInfo(1, "a", []), 0, [RegisterOk(1)])
  const HOST_B := Peer(HostRole, Registered, HostInfo(2, "b", []), 0, [RegisterOk(2)])
  const CLIENT := Peer(NoRole, New, NO_INFO, 0, [])

  /** The daemon's host 1 is registered. */
  const ONE := Y.System(Server(map[1 := HOST_A], {1}, map[], map["a" := 1], 1, 0),
      map[0 := Y.Daemon(CFG, 1, map[])], map[])

  /** So is another host 2, and a client 3 is connected. */
  const THREE := Y.System(
    Server(map[1 := HOST_A, 2 := HOST_B, 3 := CLIENT], {1, 2, 3}, map[], map["a" := 1, "b" := 2], 3, 0),
    map[0 := Y.Daemon(CFG, 1, map[])], map[])

  function Registering(id: Id, name: string): Y.Event {
    Y.Serve(OpRegister(id, Some(Registration(name, []))))
  }

  lemma NamesAcceptable()
    ensures Acceptable(Registration("a", [])) && Acceptable(Registration("b", []))
    ensures TrimSpace("a") == "a" && TrimSpace("b") == "b"
  {
  }

  lemma RegisterNew(s: Server, p: Id, name: string)
    requires p in s.all && s.all[p] == CLIENT && Acceptable(Registration(name, [])) && TrimSpace(name) == name
    ensures Register(s, p, Some(Registration(name, [])))
            == s.(all := s.all[p := Peer(HostRole, Registered, HostInfo(p, name, []), 0, [RegisterOk(p)])],
                  hostIndex := s.hostIndex[name := p])
  {
    var t := Register(s, p, Some(Registration(name, [])));
    assert t.all[p].queue == [RegisterOk(p)];
    assert t.all == s.all[p := t.all[p]];
  }

  lemma FirstHost() returns (es: seq<Y.Event>)
    ensures Y.IsRun(ALONE, es) && Y.After(ALONE, es) == ONE
  {
    NamesAcceptable();
    Extend(ALONE, [], Y.Dial(0, 1));
    Extend(ALONE, [Y.Dial(0, 1)], Registering(1, "a"));
    es := [Y.Dial(0, 1)] + [Registering(1, "a")];
    RegisterNew(Y.Next(ALONE, Y.Dial(0, 1)).server, 1, "a");
    var s := Y.After(ALONE, es);
    assert s.server.all == map[1 := HOST_A] && s.server.hostIndex == map["a" := 1] && s.server.peers == {1};
    assert s.daemons == ONE.daemons;
  }

  /** Host 2 is connected but not yet registered. */
  const TWO := Y.System(
    Server(map[1 := HOST_A, 2 := CLIENT], {1, 2}, map[], map["a" := 1], 2, 0), map[0 := Y.Daemon(CFG, 1, map[])], map[])

  lemma SecondOpens()
    ensures Y.Can(ONE, Y.Serve(OpOpen(2))) && Y.Next(ONE, Y.Serve(OpOpen(2))) == TWO
  {
    var s := Y.Next(ONE, Y.Serve(OpOpen(2)));
    assert s.server.all == TWO.server.all && s.server.peers == TWO.server.peers;
  }

  lemma SecondRegisters()
    ensures Y.Can(TWO, Registering(2, "b"))
    ensures Y.Can(Y.Next(TWO, Registering(2, "b")), Y.Serve(OpOpen(3)))
    ensures Y.Next(Y.Next(TWO, Registering(2, "b")), Y.Serve(OpOpen(3))) == THREE
  {
    NamesAcceptable();
    RegisterNew(TWO.server, 2, "b");
    var s := Y.Next(Y.Next(TWO, Registering(2, "b")), Y.Serve(OpOpen(3)));
    assert s.server.all == THREE.server.all && s.server.peers == THREE.server.peers;
  }

  lemma SecondHost() returns (es: seq<Y.Event>)
    ensures Y.IsRun(ONE, es) && Y.After(ONE, es) == THREE
  {
    SecondOpens();
    SecondRegisters();
    Extend(ONE, [], Y.Serve(OpOpen(2)));
    Extend(ONE, [] + [Y.Serve(OpOpen(2))], Registering(2, "b"));
    es := [] + [Y.Serve(OpOpen(2))] + [Registering(2, "b")];
    Extend(ONE, es, Y.Serve(OpOpen(3)));
    es := es + [Y.Serve(OpOpen(3))];
  }

  // ---- The client is served ----

  lemma {:induction false} Join(s: Y.System, es: seq<Y.Event>, more: seq<Y.Event>)
    requires Wired(s.server) && Y.IsRun(s, es) && Y.IsRun(Y.After(s, es), more)
    ensures Y.IsRun(s, es + more) && Y.After(s, es + more) == Y.After(Y.After(s, es), more)
    decreases |es|
  {
    if es == [] {
      assert es + more == more;
    } else {
      assert (es + more)[0] == es[0] && (es + more)[1..] == es[1..] + more;
      Join(Y.Next(s, es[0]), es[1..], more);
    }
  }

  function Connecting(host: Id, room: Id): Y.Event {
    Y.Serve(OpConnect(3, Some(Target(host, "")), room))
  }

  /** The client has met the daemon's host in room 7, and the daemon has read both messages. */
  ghost predicate Served(s: Y.System) {
    && Wired(s.server) && s.server.peers == {1, 2, 3} && s.server.all.Keys == {1, 2, 3}
    && s.server.rooms == map[7 := Room(1, 3)] && s.issued == map[7 := Room(1, 3)]
    && s.server.all[3].room == 7 && s.server.all[2] == HOST_B && s.server.all[1].queue == []
    && s.daemons == map[0 := Y.Daemon(CFG, 1, map[7 := 3])]
  }

  /** The same with `queue` still to be read by the daemon, and no session yet. */
  ghost predicate Joined(s: Y.System, queue: seq<Message>) {
    && Wired(s.server) && s.server.peers == {1, 2, 3} && s.server.all.Keys == {1, 2, 3}
    && s.server.rooms == map[7 := Room(1, 3)] && s.issued == map[7 := Room(1, 3)]
    && s.server.all[3].room == 7 && s.server.all[2] == HOST_B && s.server.all[1].queue == queue
    && s.daemons == map[0 := Y.Daemon(CFG, 1, map[])]
  }

  lemma JoinsServer()
    ensures var t := ConnectPeer(THREE.server, 3, Some(Target(1, "")), 7);
      && t.peers == {1, 2, 3} && t.all.Keys == {1, 2, 3} && t.rooms == map[7 := Room(1, 3)]
      && t.all[3].room == 7 && t.all[2] == HOST_B && t.all[1].queue == [RegisterOk(1), Connect(7, 3)]
  {
    ConnectEffect(THREE.server, 3, Some(Target(1, "")), 7, 1);
  }

  lemma Joins()
    ensures Y.Can(THREE, Connecting(1, 7)) && Joined(Y.Next(THREE, Connecting(1, 7)), [RegisterOk(1), Connect(7, 3)])
  {
    JoinsServer();
  }

  lemma ReadsFirst(s: Y.System)
    requires Joined(s, [RegisterOk(1), Connect(7, 3)])
    ensures Y.Can(s, Y.Deliver(0, true)) && Joined(Y.Next(s, Y.Deliver(0, true)), [Connect(7, 3)])
  {
    assert [RegisterOk(1), Connect(7, 3)][1..] == [Connect(7, 3)];
  }

  lemma ReadsSecond(s: Y.System)
    requires Joined(s, [Connect(7, 3)])
    ensures Y.Can(s, Y.Deliver(0, true)) && Served(Y.Next(s, Y.Deliver(0, true)))
  {
    assert H.Handle(CFG, map[], Connect(7, 3), true) == map[7 := 3];
  }

  lemma Serving() returns (es: seq<Y.Event>)
    ensures Y.IsRun(THREE, es) && Served(Y.After(THREE, es))
  {
    var connect, deliver := Connecting(1, 7), Y.Deliver(0, true);
    Joins();
    Extend(THREE, [], connect);
    ReadsFirst(Y.Next(THREE, connect));
    Extend(THREE, [] + [connect], deliver);
    ReadsSecond(Y.After(THREE, [] + [connect] + [deliver]));
    Extend(THREE, [] + [connect] + [deliver], deliver);
    es := [] + [connect] + [deliver] + [deliver];
  }

  lemma ServedRun() returns (es: seq<Y.Event>)
    ensures Y.IsRun(ALONE, es) && Served(Y.After(ALONE, es))
  {
    var a := FirstHost();
    var b := SecondHost();
    var c := Serving();
    Join(ALONE, a, b);
    Join(ALONE, a + b, c);
    es := a + b + c;
  }

  /** A client that leaves without a room shared with the daemon's connection leaves a drained daemon stale. */
  lemma LeavesStale(s: Y.System, d: Y.DaemonId, r: Id, c: Id)
    requires Wired(s.server) && d in s.daemons && r in s.daemons[d].sessions && s.daemons[d].sessions[r] == c
    requires s.daemons[d].conn in s.server.peers && s.server.all[s.daemons[d].conn].queue == []
    requires c in s.server.peers && c != s.daemons[d].conn
    requires !Told(s, d, c)
    ensures Y.Can(s, Y.Serve(OpLeave(c))) && Stale(Y.Next(s, Y.Serve(OpLeave(c))), d, r)
  {
    LeaveEffect(s.server, c);
    Y.LeaveQueues(s.server, c);
  }

  lemma MovesOn(s: Y.System)
    requires Served(s)
    ensures Y.Can(s, Connecting(2, 8))
    ensures var t := Y.Next(s, Connecting(2, 8));
      && t.daemons == s.daemons && t.server.peers == s.server.peers && t.server.all[1].queue == []
      && t.server.all[3].room == 8 && 8 in t.server.rooms && t.server.rooms[8] == Room(2, 3)
  {
    ConnectEffect(s.server, 3, Some(Target(2, "")), 8, 2);
  }

  /** A client that moves on to another host and then leaves stays in the first daemon's table. */
  lemma MovedClientStaysInTheTable() returns (es: seq<Y.Event>)
    ensures Y.IsRun(ALONE, es) && Stale(Y.After(ALONE, es), 0, 7)
  {
    es := ServedRun();
    MovesOn(Y.After(ALONE, es));
    Extend(ALONE, es, Connecting(2, 8));
    es := es + [Connecting(2, 8)];
    LeavesStale(Y.After(ALONE, es), 0, 7, 3);
    Extend(ALONE, es, Y.Serve(OpLeave(3)));
    es := es + [Y.Serve(OpLeave(3))];
  }

  lemma DialsAgain(s: Y.System)
    requires Served(s)
    ensures Y.Can(s, Y.Dial(0, 4))
    ensures var t := Y.Next(s, Y.Dial(0, 4));
      && t.daemons == map[0 := Y.Daemon(CFG, 4, map[7 := 3])] && t.server.peers == {1, 2, 3, 4}
      && t.server.all[4].queue == [] && t.server.all[3].room == 7 && t.server.rooms == map[7 := Room(1, 3)]
  {
  }

  /** So does a client that leaves after the daemon dialled again. */
  lemma RedialKeepsTheSession() returns (es: seq<Y.Event>)
    ensures Y.IsRun(ALONE, es) && Stale(Y.After(ALONE, es), 0, 7)
  {
    es := ServedRun();
    DialsAgain(Y.After(ALONE, es));
    Extend(ALONE, es, Y.Dial(0, 4));
    es := es + [Y.Dial(0, 4)];
    LeavesStale(Y.After(ALONE, es), 0, 7, 3);
    Extend(ALONE, es, Y.Serve(OpLeave(3)));
    es := es + [Y.Serve(OpLeave(3))];
  }

  // ---- A client that leaves before the daemon reads ----

  /** The client has met the daemon's host in room 7 and another in room 8, and the daemon has read nothing. */
  ghost predicate Unread(s: Y.System, queue: seq<Message>) {
    && Wired(s.server) && s.server.peers == {1, 2, 3} && s.server.all.Keys == {1, 2, 3}
    && s.server.rooms == map[7 := Room(1, 3), 8 := Room(2, 3)] && s.server.all[3].room == 8
    && s.server.all[1].queue == queue && s.daemons == map[0 := Y.Daemon(CFG, 1, map[])]
  }

  lemma MovesOnUnread(s: Y.System)
    requires Joined(s, [RegisterOk(1), Connect(7, 3)])
    ensures Y.Can(s, Connecting(2, 8)) && Unread(Y.Next(s, Connecting(2, 8)), [RegisterOk(1), Connect(7, 3)])
  {
    ConnectEffect(s.server, 3, Some(Target(2, "")), 8, 2);
  }

  /** Client 3 has left, and `queue` is still to be read by the daemon. */
  ghost predicate Gone(s: Y.System, queue: seq<Message>, sessions: H.Sessions) {
    && Wired(s.server) && s.server.all.Keys == {1, 2, 3} && 1 in s.server.peers && 3 !in s.server.peers
    && s.server.all[1].queue == queue && s.daemons == map[0 := Y.Daemon(CFG, 1, sessions)]
  }

  lemma LeavesUnread(s: Y.System)
    requires Unread(s, [RegisterOk(1), Connect(7, 3)])
    ensures Y.Can(s, Y.Serve(OpLeave(3)))
    ensures Gone(Y.Next(s, Y.Serve(OpLeave(3))), [RegisterOk(1), Connect(7, 3)], map[])
  {
    LeaveEffect(s.server, 3);
    Y.LeaveQueues(s.server, 3);
    assert [RegisterOk(1), Connect(7, 3)] + [] == [RegisterOk(1), Connect(7, 3)];
  }

  lemma ReadsTooLate(s: Y.System)
    requires Gone(s, [RegisterOk(1), Connect(7, 3)], map[])
    ensures Y.Can(s, Y.Deliver(0, true)) && Gone(Y.Next(s, Y.Deliver(0, true)), [Connect(7, 3)], map[])
  {
    assert [RegisterOk(1), Connect(7, 3)][1..] == [Connect(7, 3)];
  }

  lemma OpensTooLate(s: Y.System)
    requires Gone(s, [Connect(7, 3)], map[])
    ensures Y.Can(s, Y.Deliver(0, true)) && Gone(Y.Next(s, Y.Deliver(0, true)), [], map[7 := 3])
  {
    assert H.Handle(CFG, map[], Connect(7, 3), true) == map[7 := 3];
  }

  /** A client that moves on and leaves before the daemon reads gets a session after it has left. */
  lemma SessionOpensForADepartedClient() returns (es: seq<Y.Event>)
    ensures Y.IsRun(ALONE, es) && Stale(Y.After(ALONE, es), 0, 7)
  {
    var a := FirstHost();
    var b := SecondHost();
    Join(ALONE, a, b);
    Joins();
    Extend(ALONE, a + b, Connecting(1, 7));
    es := a + b + [Connecting(1, 7)];
    MovesOnUnread(Y.After(ALONE, es));
    Extend(ALONE, es, Connecting(2, 8));
    es := es + [Connecting(2, 8)];
    LeavesUnread(Y.After(ALONE, es));
    Extend(ALONE, es, Y.Serve(OpLeave(3)));
    es := es + [Y.Serve(OpLeave(3))];
    ReadsTooLate(Y.After(ALONE, es));
    Extend(ALONE, es, Y.Deliver(0, true));
    es := es + [Y.Deliver(0, true)];
    OpensTooLate(Y.After(ALONE, es));
    Extend(ALONE, es, Y.Deliver(0, true));
    es := es + [Y.Deliver(0, true)];
  }

  // ---- A client cleared by an earlier host ----

  /** The client met another host in room 8 first, and then the daemon's in room 7. */
  ghost predicate CameFrom(s: Y.System, queue: seq<Message>, sessions: H.Sessions) {
    && Wired(s.server) && s.server.peers == {1, 2, 3} && s.server.all.Keys == {1, 2, 3}
    && s.server.rooms == map[8 := Room(2, 3), 7 := Room(1, 3)]
    && s.server.all[2].room == 8 && s.server.all[3].room == 7
    && s.server.all[1].queue == queue && s.daemons == map[0 := Y.Daemon(CFG, 1, sessions)]
  }

  lemma MeetsOther()
    ensures Y.Can(THREE, Connecting(2, 8))
    ensures var s := Y.Next(THREE, Connecting(2, 8));
      && s.server.peers == {1, 2, 3} && s.server.all.Keys == {1, 2, 3}
      && s.server.rooms == map[8 := Room(2, 3)] && s.issued == map[8 := Room(2, 3)]
      && s.server.all[1] == HOST_A && s.server.all[2].room == 8 && s.daemons == THREE.daemons
  {
    ConnectEffect(THREE.server, 3, Some(Target(2, "")), 8, 2);
  }

  lemma ComesOver(s: Y.System)
    requires Wired(s.server) && s.server.peers == {1, 2, 3} && s.server.all.Keys == {1, 2, 3}
    requires s.server.rooms == map[8 := Room(2, 3)] && s.issued == map[8 := Room(2, 3)]
    requires s.server.all[1] == HOST_A && s.server.all[2].room == 8 && s.daemons == THREE.daemons
    ensures Y.Can(s, Connecting(1, 7))
    ensures CameFrom(Y.Next(s, Connecting(1, 7)), [RegisterOk(1), Connect(7, 3)], map[])
  {
    ConnectEffect(s.server, 3, Some(Target(1, "")), 7, 1);
    assert Y.Next(s, Connecting(1, 7)).server.all[1].queue == [RegisterOk(1), Connect(7, 3)];
  }

  lemma ReadsRegistration(s: Y.System)
    requires CameFrom(s, [RegisterOk(1), Connect(7, 3)], map[])
    ensures Y.Can(s, Y.Deliver(0, true)) && CameFrom(Y.Next(s, Y.Deliver(0, true)), [Connect(7, 3)], map[])
  {
    assert [RegisterOk(1), Connect(7, 3)][1..] == [Connect(7, 3)];
  }

  lemma ReadsConnect(s: Y.System)
    requires CameFrom(s, [Connect(7, 3)], map[])
    ensures Y.Can(s, Y.Deliver(0, true)) && CameFrom(Y.Next(s, Y.Deliver(0, true)), [], map[7 := 3])
  {
    assert H.Handle(CFG, map[], Connect(7, 3), true) == map[7 := 3];
  }

  /** When the earlier host leaves, it clears the room id of the client, who is now in another room. */
  lemma EarlierHostLeaves(s: Y.System)
    requires CameFrom(s, [], map[7 := 3])
    ensures Y.Can(s, Y.Serve(OpLeave(2)))
    ensures var t := Y.Next(s, Y.Serve(OpLeave(2)));
      && t.daemons == s.daemons && t.server.peers == {1, 3} && t.server.all[1].queue == []
      && t.server.all[3].room == 0 && t.server.rooms == map[7 := Room(1, 3)]
  {
    ClearsTheOther(s.server);
    Y.LeaveQueues(s.server, 2);
    assert Y.Next(s, Y.Serve(OpLeave(2))).server.all[1].queue == s.server.all[1].queue + [];
  }

  lemma ClearsTheOther(s: Server)
    requires Wired(s) && s.peers == {1, 2, 3} && s.all.Keys == {1, 2, 3}
    requires s.rooms == map[8 := Room(2, 3), 7 := Room(1, 3)] && s.all[2].room == 8 && s.all[3].room == 7
    ensures var t := Leave(s, 2); t.peers == {1, 3} && t.all[3].room == 0 && t.rooms == map[7 := Room(1, 3)]
  {
    LeaveEffect(s, 2);
    LeaveRoomEffect(s, 2);
    assert s.rooms - {8} == map[7 := Room(1, 3)];
  }

  /** So a client that never left the daemon's room can leave without the daemon being told. */
  lemma ClearedClientStaysInTheTable() returns (es: seq<Y.Event>)
    ensures Y.IsRun(ALONE, es) && Stale(Y.After(ALONE, es), 0, 7)
  {
    var a := FirstHost();
    var b := SecondHost();
    Join(ALONE, a, b);
    MeetsOther();
    Extend(ALONE, a + b, Connecting(2, 8));
    es := a + b + [Connecting(2, 8)];
    ComesOver(Y.After(ALONE, es));
    Extend(ALONE, es, Connecting(1, 7));
    es := es + [Connecting(1, 7)];
    ReadsRegistration(Y.After(ALONE, es));
    Extend(ALONE, es, Y.Deliver(0, true));
    es := es + [Y.Deliver(0, true)];
    ReadsConnect(Y.After(ALONE, es));
    Extend(ALONE, es, Y.Deliver(0, true));
    es := es + [Y.Deliver(0, true)];
    EarlierHostLeaves(Y.After(ALONE, es));
    Extend(ALONE, es, Y.Serve(OpLeave(2)));
    es := es + [Y.Serve(OpLeave(2))];
    LeavesStale(Y.After(ALONE, es), 0, 7, 3);
    Extend(ALONE, es, Y.Serve(OpLeave(3)));
    es := es + [Y.Serve(OpLeave(3))];
  }
}
