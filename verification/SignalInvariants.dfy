/**
 What every run of the signaling server keeps: room ids, the host index, the counters.
 None of it assumes anything about who connects to whom.
 */
module SignalInvariants {
  import opened Options
  import opened SignalModel

  predicate Member(r: Room, p: Id) {
    p == r.host || p == r.client
  }

  /** A connected peer's room id, when it has one, is a room it belongs to. */
  ghost predicate RoomIds(s: Server) {
    && 0 !in s.rooms
    && forall p | p in s.peers && p in s.all && s.all[p].room != 0 ::
         s.all[p].room in s.rooms && Member(s.rooms[s.all[p].room], p)
  }

  ghost predicate Listed(p: Peer) {
    p.state == Registered || p.state == InRoom
  }

  /** An index entry names a connected, registered host under the name it registered with. */
  ghost predicate IndexEntry(s: Server, n: string, p: Id) {
    && p in s.peers && p in s.all
    && s.all[p].role == HostRole
    && s.all[p].info.name == n
    && s.all[p].info.id == p
    && Listed(s.all[p])
  }

  ghost predicate Index(s: Server) {
    forall n | n in s.hostIndex :: IndexEntry(s, n, s.hostIndex[n])
  }

  /** A peer that has not registered, listed or met anyone is no host and has no room. */
  ghost predicate Lifecycle(s: Server) {
    forall p | p in s.peers && p in s.all ::
      s.all[p].state != Disconnected && (s.all[p].state == New ==> s.all[p].role != HostRole && s.all[p].room == 0)
  }

  ghost predicate Inv(s: Server) {
    && Wired(s)
    && RoomIds(s)
    && Index(s)
    && Lifecycle(s)
    && s.peerCount == |s.peers|
  }

  lemma StartInv()
    ensures Inv(EMPTY)
  {
  }

  lemma RegisterInv(s: Server, p: Id, reg: Option<Registration>)
    requires Inv(s) && p in s.peers
    ensures Inv(Register(s, p, reg))
  {
    var t := Register(s, p, reg);
    if s.all[p].state != New || reg.None? || !Acceptable(reg.value) {
      SendInv(s, p, if s.all[p].state != New then Error(InvalidState) else Error(InvalidPayload));
    } else {
      assert t.all == s.all[p := t.all[p]];
      RegisteredInv(s, t, p, TrimSpace(reg.value.name));
    }
  }

  lemma SendInv(s: Server, p: Id, m: Message)
    requires Inv(s) && p in s.all
    ensures Inv(Send(s, p, m))
  {
  }

  lemma RegisteredInv(s: Server, t: Server, p: Id, name: string)
    requires Inv(s) && p in s.peers && s.all[p].state == New && p in t.all
    requires t.all == s.all[p := t.all[p]] && t.hostIndex == s.hostIndex[name := p]
    requires t.peers == s.peers && t.rooms == s.rooms && t.peerCount == s.peerCount
    requires t.all[p].role == HostRole && t.all[p].state == Registered && t.all[p].room == s.all[p].room
    requires t.all[p].info.name == name && t.all[p].info.id == p
    ensures Inv(t)
  {
    forall n | n in t.hostIndex ensures IndexEntry(t, n, t.hostIndex[n]) {
      if n != name {
        assert IndexEntry(s, n, s.hostIndex[n]);
      }
    }
  }

  lemma UpdateInv(s: Server, p: Id, features: Option<seq<string>>)
    requires Inv(s) && p in s.peers
    ensures Inv(Update(s, p, features))
  {
  }

  lemma ListInv(s: Server, p: Id)
    requires Inv(s) && p in s.peers
    ensures Inv(ListHosts(s, p))
  {
  }

  /** A connect request that reaches a host puts exactly the two of them into the new room. */
  lemma ConnectEffect(s: Server, p: Id, target: Option<Target>, room: Id, h: Id)
    requires Wired(s) && p in s.peers && ConnectTarget(s, target) == Some(h)
    ensures var t := ConnectPeer(s, p, target, room);
      && t.peers == s.peers && t.hostIndex == s.hostIndex && t.all.Keys == s.all.Keys
      && t.rooms == s.rooms[room := Room(h, p)]
      && t.peerCount == s.peerCount && t.roomCount == s.roomCount + 1
      && (forall id | id in s.all && id != h && id != p :: t.all[id] == s.all[id])
      && (forall id | id in s.all :: t.all[id].info == s.all[id].info)
      && (forall id | id in s.all && (id == h || id == p) :: t.all[id].room == room && t.all[id].state == InRoom)
      && (forall id | id in s.all && id != p :: t.all[id].role == s.all[id].role)
      && t.all[p].role == AsClient(s.all[p]).role
      && (h != p ==> t.all[h].queue == s.all[h].queue + [Connect(room, p)])
      && t.all[p].queue == s.all[p].queue + [RoomReady(room, h, s.all[h].info)]
                           + (if h == p then [Connect(room, p)] else [])
  {
  }

  /** Any other connect request only makes a peer without a role a client and answers with an error. */
  lemma ConnectFails(s: Server, p: Id, target: Option<Target>, room: Id)
    requires Wired(s) && p in s.peers && ConnectTarget(s, target).None?
    ensures var t := ConnectPeer(s, p, target, room);
      && t == s.(all := s.all[p := t.all[p]])
      && t.all[p].(role := NoRole, queue := []) == s.all[p].(role := NoRole, queue := [])
      && (t.all[p].role == s.all[p].role || (s.all[p].role == NoRole && t.all[p].role == ClientRole))
      && exists e :: t.all[p].queue == s.all[p].queue + [Error(e)]
  {
    var t := ConnectPeer(s, p, target, room);
    var e := if target.None? then InvalidPayload else HostNotFound;
    assert t.all[p].queue == s.all[p].queue + [Error(e)];
  }

  lemma ConnectInv(s: Server, p: Id, target: Option<Target>, room: Id)
    requires Inv(s) && p in s.peers && room != 0 && room !in s.rooms
    ensures Inv(ConnectPeer(s, p, target, room))
  {
    var t := ConnectPeer(s, p, target, room);
    match ConnectTarget(s, target) {
      case None => ConnectFails(s, p, target, room);
      case Some(h) =>
        ConnectEffect(s, p, target, room, h);
        ConnectedInv(s, t, p, room, h);
    }
  }

  lemma ConnectedInv(s: Server, t: Server, p: Id, room: Id, h: Id)
    requires Inv(s) && p in s.peers && h in s.peers && room != 0 && room !in s.rooms
    requires t.peers == s.peers && t.hostIndex == s.hostIndex && t.all.Keys == s.all.Keys
    requires t.rooms == s.rooms[room := Room(h, p)] && t.peerCount == s.peerCount
    requires forall id | id in s.all && id != h && id != p :: t.all[id] == s.all[id]
    requires forall id | id in s.all :: t.all[id].info == s.all[id].info
    requires forall id | id in s.all && (id == h || id == p) :: t.all[id].room == room && t.all[id].state == InRoom
    requires forall id | id in s.all && id != p :: t.all[id].role == s.all[id].role
    requires t.all[p].role == AsClient(s.all[p]).role
    ensures Inv(t)
  {
  }

  /** The room part of a departure, when the leaver's room id is a room. */
  lemma LeaveRoomEffect(s: Server, p: Id)
    requires Wired(s) && p in s.peers && s.all[p].room in s.rooms
    ensures var room, t := s.all[p].room, LeaveRoom(s, p);
      var other := Other(s.rooms[room], p);
      && t.peers == s.peers && t.hostIndex == s.hostIndex && t.all.Keys == s.all.Keys
      && t.peerCount == s.peerCount && t.roomCount == s.roomCount - 1
      && t.rooms == s.rooms - {if other == p then 0 else room}
      && (forall id | id in s.all && id != other :: t.all[id] == s.all[id])
      && t.all[other] == s.all[other].(room := 0, state := Registered, queue := s.all[other].queue + [PeerLeft(p)])
  {
  }

  /** A departure: the peer leaves the tables, and only its current room's other member hears of it. */
  lemma LeaveEffect(s: Server, p: Id)
    requires Wired(s) && p in s.peers
    ensures var s1, t := LeaveRoom(s, p), Leave(s, p);
      && s1.peers == s.peers && s1.hostIndex == s.hostIndex && s1.peerCount == s.peerCount
      && t.peers == s.peers - {p} && t.peerCount == s.peerCount - 1 && t.all.Keys == s.all.Keys
      && t.rooms == s1.rooms && t.roomCount == s1.roomCount
      && t.all[p] == s1.all[p].(state := Disconnected)
      && (forall id | id in s.all && id != p :: t.all[id] == s1.all[id])
      && (forall n | n in t.hostIndex :: n in s.hostIndex && t.hostIndex[n] == s.hostIndex[n] != p)
      && (forall n | n in s.hostIndex && s.hostIndex[n] != p :: n in t.hostIndex)
  {
    if s.all[p].room in s.rooms {
      LeaveRoomEffect(s, p);
    }
  }

  lemma LeaveInv(s: Server, p: Id)
    requires Inv(s) && p in s.peers
    ensures Inv(Leave(s, p))
  {
    LeaveEffect(s, p);
    var t := Leave(s, p);
    if s.all[p].room in s.rooms {
      LeaveRoomEffect(s, p);
    }
    assert RoomIds(t) by {
      forall q | q in t.peers && t.all[q].room != 0
        ensures t.all[q].room in t.rooms && Member(t.rooms[t.all[q].room], q)
      {
        assert t.all[q].room == s.all[q].room;
      }
    }
    assert Index(t) by {
      forall n | n in t.hostIndex ensures IndexEntry(t, n, t.hostIndex[n]) {
        assert IndexEntry(s, n, s.hostIndex[n]);
      }
    }
  }

  /** Opening, registering, updating, listing and relaying leave every room and room id alone. */
  lemma QuietEffect(s: Server, op: Op)
    requires Wired(s) && Enabled(s, op) && !op.OpConnect? && !op.OpLeave?
    ensures var t := Step(s, op);
      && t.rooms == s.rooms && t.roomCount == s.roomCount
      && s.peers <= t.peers
      && s.all.Keys <= t.all.Keys
      && (forall id | id in s.all :: t.all[id].room == s.all[id].room)
      && (forall id | id in t.all && id !in s.all :: t.all[id].room == 0)
  {
    match op
    case OpOpen(id) =>
    case OpRegister(p, reg) =>
    case OpUpdate(p, features) =>
    case OpList(p) =>
    case OpRelay(p, body) =>
  }

  lemma StepInv(s: Server, op: Op)
    requires Inv(s) && Enabled(s, op)
    ensures Inv(Step(s, op))
  {
    match op
    case OpOpen(id) =>
    case OpRegister(p, reg) => RegisterInv(s, p, reg);
    case OpUpdate(p, features) => UpdateInv(s, p, features);
    case OpList(p) => ListInv(s, p);
    case OpConnect(p, target, room) => ConnectInv(s, p, target, room);
    case OpRelay(p, body) =>
    case OpLeave(p) => LeaveInv(s, p);
  }

  /** The invariants hold in every reachable state. */
  lemma {:induction false} EveryRun(s: Server, ops: seq<Op>)
    requires Inv(s) && IsRun(s, ops)
    ensures Inv(After(s, ops))
    decreases |ops|
  {
    if ops != [] {
      StepInv(s, ops[0]);
      EveryRun(Step(s, ops[0]), ops[1..]);
    }
  }

  // ---- What the invariants give ----

  /** In any run, a peer owns at most one entry of the host index, under the name it registered. */
  lemma OneIndexEntryPerPeer(ops: seq<Op>, n: string)
    requires IsRun(EMPTY, ops) && n in After(EMPTY, ops).hostIndex
    ensures var s := After(EMPTY, ops);
      var p := s.hostIndex[n];
      && p in s.peers && s.all[p].role == HostRole && s.all[p].info.name == n
      && forall m | m in s.hostIndex && s.hostIndex[m] == p :: m == n
  {
    StartInv();
    EveryRun(EMPTY, ops);
    var s := After(EMPTY, ops);
    forall m | m in s.hostIndex && s.hostIndex[m] == s.hostIndex[n] ensures m == n {
      assert IndexEntry(s, m, s.hostIndex[m]) && IndexEntry(s, n, s.hostIndex[n]);
    }
  }

  /** In any run, the state-filtered WebSocket list and the unfiltered HTTP list show the same hosts. */
  lemma HostListsAgree(ops: seq<Op>)
    requires IsRun(EMPTY, ops)
    ensures FilteredHosts(After(EMPTY, ops)) == AllHosts(After(EMPTY, ops))
  {
    StartInv();
    EveryRun(EMPTY, ops);
    var s := After(EMPTY, ops);
    forall n | n in s.hostIndex ensures Listed(s.all[s.hostIndex[n]]) {
      assert IndexEntry(s, n, s.hostIndex[n]);
    }
  }

  /** Removing the one entry under a peer's registered name removes all it owns and nothing else. */
  lemma LeaveDropsOneEntry(s: Server, p: Id)
    requires Inv(s) && p in s.peers
    ensures var n := s.all[p].info.name;
      Leave(s, p).hostIndex == if n in s.hostIndex && s.hostIndex[n] == p then s.hostIndex - {n} else s.hostIndex
  {
    LeaveEffect(s, p);
    forall m | m in s.hostIndex && s.hostIndex[m] == p ensures m == s.all[p].info.name {
      assert IndexEntry(s, m, p);
    }
  }

  /**
   In any run, a connected peer in a room reaches the other recorded member of that very
   room and nobody else, with the room's id on the message; a peer without a room gets an
   error back.
   */
  lemma RelayReachesTheOtherMember(ops: seq<Op>, p: Id, body: string)
    requires IsRun(EMPTY, ops) && p in After(EMPTY, ops).peers
    ensures var s := After(EMPTY, ops);
      var t, room := Relay(s, p, body), s.all[p].room;
      if room == 0 then
        t == s.(all := s.all[p := s.all[p].(queue := s.all[p].queue + [Error(NoRoom)])])
      else
        && room in s.rooms
        && Member(s.rooms[room], p)
        && (exists q | q in s.all ::
              && {p, q} == {s.rooms[room].host, s.rooms[room].client}
              && t == s.(all := s.all[q := s.all[q].(queue := s.all[q].queue + [Relayed(room, p, body)])]))
  {
    StartInv();
    EveryRun(EMPTY, ops);
    var s := After(EMPTY, ops);
    if s.all[p].room != 0 {
      var q := Other(s.rooms[s.all[p].room], p);
      assert {p, q} == {s.rooms[s.all[p].room].host, s.rooms[s.all[p].room].client};
    }
  }

  /**
   A departure drops exactly the room that is the leaver's current one, unless it is a room
   with itself; every other room it is a member of outlives it.
   */
  lemma RoomsThatOutliveALeaver(s: Server, p: Id, r: Id)
    requires Inv(s) && p in s.peers && r in s.rooms && Member(s.rooms[r], p)
    ensures r in Leave(s, p).rooms <==> (r != s.all[p].room || s.rooms[r] == Room(p, p))
  {
    LeaveEffect(s, p);
    if s.all[p].room in s.rooms {
      LeaveRoomEffect(s, p);
    }
  }

  // ---- Counters ----

  /** The departure of a peer whose current room is one with itself. */
  predicate SelfLeave(s: Server, op: Op) {
    op.OpLeave? && op.p in s.all && s.all[op.p].room in s.rooms
    && s.rooms[s.all[op.p].room] == Room(op.p, op.p)
  }

  ghost function SelfLeaves(s: Server, ops: seq<Op>): nat
    requires Wired(s) && IsRun(s, ops)
    decreases |ops|
  {
    if ops == [] then 0
    else (if SelfLeave(s, ops[0]) then 1 else 0) + SelfLeaves(Step(s, ops[0]), ops[1..])
  }

  lemma ConnectRoomCount(s: Server, p: Id, target: Option<Target>, room: Id)
    requires Wired(s) && p in s.peers && room !in s.rooms
    ensures var t := ConnectPeer(s, p, target, room); t.roomCount - |t.rooms| == s.roomCount - |s.rooms|
  {
    match ConnectTarget(s, target) {
      case None => ConnectFails(s, p, target, room);
      case Some(h) =>
        ConnectEffect(s, p, target, room, h);
        OneMoreRoom(s.rooms, room, Room(h, p));
    }
  }

  lemma OneMoreRoom(rooms: map<Id, Room>, r: Id, room: Room)
    requires r !in rooms
    ensures |rooms[r := room]| == |rooms| + 1
  {
    assert rooms[r := room].Keys == rooms.Keys + {r};
    assert |rooms[r := room].Keys| == |rooms[r := room]| && |rooms.Keys| == |rooms|;
  }

  lemma LeaveRoomCount(s: Server, p: Id)
    requires Inv(s) && p in s.peers
    ensures var t := Leave(s, p);
      t.roomCount - |t.rooms| == s.roomCount - |s.rooms| - (if SelfLeave(s, OpLeave(p)) then 1 else 0)
  {
    LeaveEffect(s, p);
    var room := s.all[p].room;
    if room in s.rooms {
      LeaveRoomEffect(s, p);
      assert (s.rooms - {room}).Keys == s.rooms.Keys - {room};
      assert s.rooms - {0} == s.rooms;
      assert Other(s.rooms[room], p) == p <==> s.rooms[room] == Room(p, p) by {
        assert Member(s.rooms[room], p);
      }
    }
  }

  lemma StepRoomCount(s: Server, op: Op)
    requires Inv(s) && Enabled(s, op)
    ensures var t := Step(s, op);
      t.roomCount - |t.rooms| == s.roomCount - |s.rooms| - (if SelfLeave(s, op) then 1 else 0)
  {
    match op
    case OpConnect(p, target, room) => ConnectRoomCount(s, p, target, room);
    case OpLeave(p) => LeaveRoomCount(s, p);
    case _ => QuietEffect(s, op);
  }

  lemma {:induction false} RoomCountFrom(s: Server, ops: seq<Op>)
    requires Inv(s) && IsRun(s, ops)
    ensures After(s, ops).roomCount - |After(s, ops).rooms| == s.roomCount - |s.rooms| - SelfLeaves(s, ops)
    decreases |ops|
  {
    if ops != [] {
      StepInv(s, ops[0]);
      StepRoomCount(s, ops[0]);
      RoomCountFrom(Step(s, ops[0]), ops[1..]);
    }
  }

  /**
   In any run the peer counter is the number of connected peers, and the room counter
   falls short of the number of rooms by one for each peer that left a room with itself;
   so it is right exactly when no peer has.
   */
  lemma Counters(ops: seq<Op>)
    requires IsRun(EMPTY, ops)
    ensures var s := After(EMPTY, ops);
      && s.peerCount == |s.peers|
      && s.roomCount == |s.rooms| - SelfLeaves(EMPTY, ops)
      && (s.roomCount == |s.rooms| <==> SelfLeaves(EMPTY, ops) == 0)
  {
    StartInv();
    EveryRun(EMPTY, ops);
    RoomCountFrom(EMPTY, ops);
  }
}
