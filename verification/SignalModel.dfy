/**
 The signaling server as a state machine on values. Each handler is one atomic step.
 
 `all` holds the record of every peer that ever connected, because a room may still
 point at a peer that left; `peers` is the key set of the server's peer table. A
 message sent to a peer is appended to that peer's queue.
 */
module SignalModel {
  import opened Options

  /**
   Peer and room ids. The server prints each as a fixed prefix and a clock reading in
   nanoseconds; here an id is that number, and 0 stands for the empty string of a peer
   that is in no room.
   */
  type Id = nat

  /** A connect target is a string: the peer id it spells, 0 if it spells none, and the string itself. */
  datatype Target = Target(asId: Id, asName: string)

  const MAX_HOST_NAME_LEN := 64
  const MAX_FEATURES_COUNT := 20

  datatype Role = NoRole | HostRole | ClientRole

  datatype PeerState = New | Registered | InRoom | Disconnected

  datatype HostInfo = HostInfo(id: Id, name: string, features: seq<string>)

  datatype Registration = Registration(name: string, features: seq<string>)

  datatype ErrorKind = InvalidState | InvalidPayload | HostNotFound | NoRoom

  /** `sender` of a relayed message is kept for the proofs; the wire message does not carry it. */
  datatype Message =
    | RegisterOk(id: Id)
    | HostList(hosts: set<HostInfo>)
    | RoomReady(room: Id, hostId: Id, host: HostInfo)
    | Connect(room: Id, clientId: Id)
    | PeerLeft(peerId: Id)
    | Relayed(room: Id, sender: Id, body: string)
    | Error(kind: ErrorKind)

  datatype Peer = Peer(role: Role, state: PeerState, info: HostInfo, room: Id, queue: seq<Message>)

  datatype Room = Room(host: Id, client: Id)

  datatype Server = Server(
    all: map<Id, Peer>,
    peers: set<Id>,
    rooms: map<Id, Room>,
    hostIndex: map<string, Id>,
    peerCount: int,
    roomCount: int)

  const NO_INFO := HostInfo(0, "", [])

  const EMPTY := Server(map[], {}, map[], map[], 0, 0)

  /** Every peer the tables mention has a record. */
  ghost predicate Wired(s: Server) {
    && s.peers <= s.all.Keys
    && (forall r | r in s.rooms :: s.rooms[r].host in s.all && s.rooms[r].client in s.all)
    && (forall n | n in s.hostIndex :: s.hostIndex[n] in s.all)
  }

  function Put(s: Server, id: Id, p: Peer): Server {
    s.(all := s.all[id := p])
  }

  function Send(s: Server, id: Id, m: Message): Server
    requires id in s.all
  {
    Put(s, id, s.all[id].(queue := s.all[id].queue + [m]))
  }

  // ---- Handlers ----

  function Open(s: Server, id: Id): Server {
    Put(s, id, Peer(NoRole, New, NO_INFO, 0, [])).(peers := s.peers + {id}, peerCount := s.peerCount + 1)
  }

  function IsSpace(c: char): bool {
    c == ' ' || c == '\t' || c == '\n' || c == '\r' || c == 11 as char || c == 12 as char
  }

  function TrimSpace(name: string): string {
    if name != "" && IsSpace(name[0]) then TrimSpace(name[1..])
    else if name != "" && IsSpace(name[|name| - 1]) then TrimSpace(name[..|name| - 1])
    else name
  }

  predicate Acceptable(reg: Registration) {
    TrimSpace(reg.name) != "" && |TrimSpace(reg.name)| <= MAX_HOST_NAME_LEN && |reg.features| <= MAX_FEATURES_COUNT
  }

  /** `reg` is None when the payload does not parse. */
  function Register(s: Server, p: Id, reg: Option<Registration>): Server
    requires p in s.all
  {
    if s.all[p].state != New then Send(s, p, Error(InvalidState))
    else if reg.None? || !Acceptable(reg.value) then Send(s, p, Error(InvalidPayload))
    else
      var name := TrimSpace(reg.value.name);
      var host := s.all[p].(role := HostRole, state := Registered, info := HostInfo(p, name, reg.value.features));
      Send(Put(s, p, host).(hostIndex := s.hostIndex[name := p]), p, RegisterOk(p))
  }

  /** `features` is None when the payload does not parse or has no feature list. */
  function Update(s: Server, p: Id, features: Option<seq<string>>): Server
    requires p in s.all
  {
    if features.None? then s
    else Put(s, p, s.all[p].(info := s.all[p].info.(features := features.value)))
  }

  function AsClient(p: Peer): Peer {
    if p.role == NoRole then p.(role := ClientRole) else p
  }

  /** The host list sent over the WebSocket: indexed peers in state Registered or InRoom. */
  function FilteredHosts(s: Server): set<HostInfo>
    requires forall n | n in s.hostIndex :: s.hostIndex[n] in s.all
  {
    set n | n in s.hostIndex && (s.all[s.hostIndex[n]].state == Registered || s.all[s.hostIndex[n]].state == InRoom)
      :: s.all[s.hostIndex[n]].info
  }

  /** The host list served over HTTP: every indexed peer. */
  function AllHosts(s: Server): set<HostInfo>
    requires forall n | n in s.hostIndex :: s.hostIndex[n] in s.all
  {
    set n | n in s.hostIndex :: s.all[s.hostIndex[n]].info
  }

  function ListHosts(s: Server, p: Id): Server
    requires Wired(s) && p in s.all
  {
    var s1 := Put(s, p, AsClient(s.all[p]).(state := Registered));
    Send(s1, p, HostList(FilteredHosts(s1)))
  }

  /** A connect target is a peer id, else a host name. */
  function Lookup(s: Server, target: Target): Option<Id> {
    if target.asId in s.peers then Some(target.asId)
    else if target.asName in s.hostIndex then Some(s.hostIndex[target.asName])
    else None
  }

  /** The host a connect request reaches, if it reaches one; `target` is None when the payload does not parse. */
  function ConnectTarget(s: Server, target: Option<Target>): Option<Id>
    requires Wired(s)
  {
    if target.None? then None
    else
      var found := Lookup(s, target.value);
      if found.Some? && s.all[found.value].state == Disconnected then None else found
  }

  function JoinRoom(s: Server, p: Id, room: Id): Server
    requires p in s.all
  {
    Put(s, p, s.all[p].(room := room, state := InRoom))
  }

  /** Host h and peer p enter a new room, and each is told. */
  function Meet(s: Server, h: Id, p: Id, room: Id): Server
    requires h in s.all && p in s.all
  {
    var s1 := s.(rooms := s.rooms[room := Room(h, p)], roomCount := s.roomCount + 1);
    var s2 := JoinRoom(JoinRoom(s1, h, room), p, room);
    Send(Send(s2, p, RoomReady(room, h, s2.all[h].info)), h, Connect(room, p))
  }

  function ConnectPeer(s: Server, p: Id, target: Option<Target>, room: Id): Server
    requires Wired(s) && p in s.all
  {
    if target.None? then Send(s, p, Error(InvalidPayload))
    else
      var s0 := Put(s, p, AsClient(s.all[p]));
      var h := ConnectTarget(s0, target);
      if h.None? then Send(s0, p, Error(HostNotFound))
      else Meet(s0, h.value, p, room)
  }

  /** The member of a room a given peer talks to. */
  function Other(r: Room, p: Id): Id {
    if p == r.host then r.client else r.host
  }

  function Relay(s: Server, p: Id, body: string): Server
    requires Wired(s) && p in s.all
  {
    var room := s.all[p].room;
    if room !in s.rooms then Send(s, p, Error(NoRoom))
    else Send(s, Other(s.rooms[room], p), Relayed(room, p, body))
  }

  /** The other member is cleared and told; then the leaver's room id, as it now is, leaves the room table. */
  function Part(s: Server, p: Id, other: Id): Server
    requires p in s.all && other in s.all
  {
    var s1 := Send(Put(s, other, s.all[other].(room := 0, state := Registered)), other, PeerLeft(p));
    s1.(rooms := s1.rooms - {s1.all[p].room}, roomCount := s1.roomCount - 1)
  }

  function LeaveRoom(s: Server, p: Id): Server
    requires Wired(s) && p in s.all
  {
    if s.all[p].room !in s.rooms then s else Part(s, p, Other(s.rooms[s.all[p].room], p))
  }

  function Leave(s: Server, p: Id): Server
    requires Wired(s) && p in s.all
  {
    var s1 := LeaveRoom(s, p);
    Put(s1, p, s1.all[p].(state := Disconnected)).(
      hostIndex := map n | n in s1.hostIndex && s1.hostIndex[n] != p :: s1.hostIndex[n],
      peers := s1.peers - {p},
      peerCount := s1.peerCount - 1)
  }

  // ---- Runs ----

  datatype Op =
    | OpOpen(id: Id)
    | OpRegister(p: Id, reg: Option<Registration>)
    | OpUpdate(p: Id, features: Option<seq<string>>)
    | OpList(p: Id)
    | OpConnect(p: Id, target: Option<Target>, room: Id)
    | OpRelay(p: Id, body: string)
    | OpLeave(p: Id)

  /** Only connected peers act, and new ids are fresh and non-empty. */
  predicate Enabled(s: Server, op: Op) {
    match op
    case OpOpen(id) => id != 0 && id !in s.all
    case OpConnect(p, _, room) => p in s.peers && room != 0 && room !in s.rooms
    case _ => op.p in s.peers
  }

  function Step(s: Server, op: Op): (t: Server)
    requires Wired(s) && Enabled(s, op)
    ensures Wired(t)
  {
    match op
    case OpOpen(id) => Open(s, id)
    case OpRegister(p, reg) => Register(s, p, reg)
    case OpUpdate(p, features) => Update(s, p, features)
    case OpList(p) => ListHosts(s, p)
    case OpConnect(p, target, room) => ConnectPeer(s, p, target, room)
    case OpRelay(p, body) => Relay(s, p, body)
    case OpLeave(p) => Leave(s, p)
  }

  ghost predicate IsRun(s: Server, ops: seq<Op>)
    requires Wired(s)
    decreases |ops|
  {
    ops == [] || (Enabled(s, ops[0]) && IsRun(Step(s, ops[0]), ops[1..]))
  }

  ghost function After(s: Server, ops: seq<Op>): (t: Server)
    requires Wired(s) && IsRun(s, ops)
    ensures Wired(t)
    decreases |ops|
  {
    if ops == [] then s else After(Step(s, ops[0]), ops[1..])
  }
}
