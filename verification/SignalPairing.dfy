/**
 Pairing. As long as every connect request that succeeds joins two distinct peers
 without a room, the rooms are a perfect matching of connected peers.
 */
module SignalPairing {
  import opened Options
  import opened SignalModel
  import opened SignalInvariants

  /** A successful connect joins two distinct peers, neither of which has a room. */
  ghost predicate Pairs(s: Server, op: Op)
    requires Wired(s) && Enabled(s, op)
  {
    op.OpConnect? && ConnectTarget(s, op.target).Some? ==>
      var h := ConnectTarget(s, op.target).value;
      h != op.p && s.all[h].room == 0 && s.all[op.p].room == 0
  }

  ghost predicate PairingRun(s: Server, ops: seq<Op>)
    requires Wired(s) && IsRun(s, ops)
    decreases |ops|
  {
    ops == [] || (Pairs(s, ops[0]) && PairingRun(Step(s, ops[0]), ops[1..]))
  }

  /** Both members of every room are connected, distinct, and point back to it. */
  ghost predicate Matched(s: Server)
    requires Wired(s)
  {
    forall r | r in s.rooms ::
      var room := s.rooms[r];
      && room.host != room.client
      && room.host in s.peers && s.all[room.host].room == r
      && room.client in s.peers && s.all[room.client].room == r
  }

  lemma LeaveMatched(s: Server, p: Id)
    requires Inv(s) && Matched(s) && p in s.peers
    ensures Matched(Leave(s, p))
  {
    LeaveEffect(s, p);
    if s.all[p].room in s.rooms {
      LeaveRoomEffect(s, p);
    }
  }

  /** A connect request keeps the matching exactly when it pairs two peers without a room, or reaches nobody. */
  lemma ConnectMatched(s: Server, op: Op)
    requires Inv(s) && Matched(s) && op.OpConnect? && Enabled(s, op)
    ensures Matched(ConnectPeer(s, op.p, op.target, op.room)) <==> Pairs(s, op)
  {
    if ConnectTarget(s, op.target).None? {
      MissedMatched(s, op.p, op.target, op.room);
    } else {
      HitMatched(s, op.p, op.target, op.room, ConnectTarget(s, op.target).value);
    }
  }

  lemma HitMatched(s: Server, p: Id, target: Option<Target>, room: Id, h: Id)
    requires Inv(s) && Matched(s) && p in s.peers && room != 0 && room !in s.rooms
              && ConnectTarget(s, target) == Some(h)
    ensures Matched(ConnectPeer(s, p, target, room)) <==> h != p && s.all[h].room == 0 && s.all[p].room == 0
  {
    ConnectEffect(s, p, target, room, h);
    assert h in s.peers;
    ConnectedMatched(s, ConnectPeer(s, p, target, room), p, room, h);
  }

  lemma MissedMatched(s: Server, p: Id, target: Option<Target>, room: Id)
    requires Inv(s) && Matched(s) && p in s.peers && room != 0 && room !in s.rooms && ConnectTarget(s, target).None?
    ensures Matched(ConnectPeer(s, p, target, room))
  {
    ConnectFails(s, p, target, room);
  }

  lemma ConnectedMatched(s: Server, t: Server, p: Id, room: Id, h: Id)
    requires Inv(s) && Matched(s) && Wired(t) && p in s.peers && h in s.peers && room != 0 && room !in s.rooms
    requires t.peers == s.peers && t.all.Keys == s.all.Keys && t.rooms == s.rooms[room := Room(h, p)]
    requires forall id | id in s.all && id != h && id != p :: t.all[id] == s.all[id]
    requires forall id | id in s.all && (id == h || id == p) :: t.all[id].room == room
    ensures Matched(t) <==> h != p && s.all[h].room == 0 && s.all[p].room == 0
  {
    assert t.rooms[room] == Room(h, p);
    forall q | q == h || q == p ensures s.all[q].room != 0 ==> !Matched(t) {
      var was := s.all[q].room;
      if was != 0 {
        assert Member(s.rooms[was], q) && t.rooms[was] == s.rooms[was];
      }
    }
  }

  lemma StepMatched(s: Server, op: Op)
    requires Inv(s) && Matched(s) && Enabled(s, op) && Pairs(s, op)
    ensures Matched(Step(s, op))
  {
    match op
    case OpConnect(_, _, _) => ConnectMatched(s, op);
    case OpLeave(p) => LeaveMatched(s, p);
    case _ => QuietEffect(s, op);
  }

  lemma {:induction false} RunMatched(s: Server, ops: seq<Op>)
    requires Inv(s) && Matched(s) && IsRun(s, ops) && PairingRun(s, ops)
    ensures Inv(After(s, ops)) && Matched(After(s, ops))
    decreases |ops|
  {
    if ops != [] {
      StepInv(s, ops[0]);
      StepMatched(s, ops[0]);
      RunMatched(Step(s, ops[0]), ops[1..]);
    }
  }

  // ---- Counting ----

  function Paired(rooms: map<Id, Room>, r: Id): set<Id>
    requires r in rooms
  {
    {rooms[r].host, rooms[r].client}
  }

  /** The members of the rooms in rs. */
  function Members(rooms: map<Id, Room>, rs: set<Id>): set<Id>
    requires rs <= rooms.Keys
  {
    set r, p | r in rs && p in Paired(rooms, r) :: p
  }

  lemma {:induction false} TwoPerRoom(s: Server, rs: set<Id>)
    requires Wired(s) && Matched(s) && rs <= s.rooms.Keys
    ensures |Members(s.rooms, rs)| == 2 * |rs|
    decreases rs
  {
    if rs == {} {
      assert Members(s.rooms, rs) == {};
    } else {
      var r :| r in rs;
      TwoPerRoom(s, rs - {r});
      var pair, others := Paired(s.rooms, r), Members(s.rooms, rs - {r});
      assert Members(s.rooms, rs) == others + pair;
      assert others !! pair;
      assert |pair| == 2;
    }
  }

  ghost function InRooms(s: Server): set<Id>
    requires Wired(s)
  {
    set p | p in s.peers && s.all[p].room != 0
  }

  lemma MatchedFacts(s: Server)
    requires Inv(s) && Matched(s)
    ensures forall p, r | p in s.peers && r in s.rooms :: Member(s.rooms[r], p) <==> s.all[p].room == r
    ensures InRooms(s) == Members(s.rooms, s.rooms.Keys)
    ensures |InRooms(s)| == 2 * |s.rooms|
  {
    TwoPerRoom(s, s.rooms.Keys);
    forall p | p in InRooms(s) ensures p in Members(s.rooms, s.rooms.Keys) {
      assert p in Paired(s.rooms, s.all[p].room);
    }
    forall p | p in Members(s.rooms, s.rooms.Keys) ensures p in InRooms(s) {
      var r :| r in s.rooms && p in Paired(s.rooms, r);
    }
  }

  /**
   In every pairing run the rooms are a perfect matching: a connected peer is in one room
   exactly when it has a room id, the peers with a room id number twice the rooms, and no
   room outlives either of its members.
   */
  lemma PerfectMatching(ops: seq<Op>)
    requires IsRun(EMPTY, ops) && PairingRun(EMPTY, ops)
    ensures var s := After(EMPTY, ops);
      && Matched(s)
      && (forall p, r | p in s.peers && r in s.rooms :: Member(s.rooms[r], p) <==> s.all[p].room == r)
      && InRooms(s) == Members(s.rooms, s.rooms.Keys)
      && |InRooms(s)| == 2 * |s.rooms|
      && s.roomCount == |s.rooms| && s.peerCount == |s.peers|
  {
    StartInv();
    RunMatched(EMPTY, ops);
    MatchedFacts(After(EMPTY, ops));
    NoSelfLeaves(EMPTY, ops);
    Counters(ops);
  }

  lemma {:induction false} NoSelfLeaves(s: Server, ops: seq<Op>)
    requires Inv(s) && Matched(s) && IsRun(s, ops) && PairingRun(s, ops)
    ensures SelfLeaves(s, ops) == 0
    decreases |ops|
  {
    if ops != [] {
      StepInv(s, ops[0]);
      StepMatched(s, ops[0]);
      NoSelfLeaves(Step(s, ops[0]), ops[1..]);
    }
  }

  /** Whom a relayed message of p goes to, and with which room id. */
  function RelayTarget(s: Server, p: Id): Option<(Id, Id)>
    requires p in s.all
  {
    var room := s.all[p].room;
    if room in s.rooms then Some((Other(s.rooms[room], p), room)) else None
  }

  /** In every pairing run partners relay to each other: a connected peer's target relays back to it. */
  lemma RelayIsSymmetric(ops: seq<Op>, p: Id)
    requires IsRun(EMPTY, ops) && PairingRun(EMPTY, ops) && p in After(EMPTY, ops).peers
    ensures var s := After(EMPTY, ops);
      match RelayTarget(s, p)
      case None => s.all[p].room == 0
      case Some((q, room)) => q != p && q in s.peers && RelayTarget(s, q) == Some((p, room))
  {
    RunMatched(EMPTY, ops);
    var s := After(EMPTY, ops);
    if s.all[p].room != 0 {
      assert Member(s.rooms[s.all[p].room], p);
    }
  }
}
