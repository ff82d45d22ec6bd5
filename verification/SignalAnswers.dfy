/**
 What the server answers to each request, in terms of its tables alone: which host a target
 names, which registrations are accepted and what they leave, and which hosts a list shows.
 */
module SignalAnswers {
  import opened Options
  import opened SignalModel
  import opened SignalInvariants

  // ---- Connect ----

  /** Peer p has met host h in a new room, and each has been told; nobody else is affected. */
  ghost predicate Met(s: Server, t: Server, p: Id, h: Id, room: Id)
    requires p in s.all && h in s.all
  {
    && t.rooms == s.rooms[room := Room(h, p)] && t.peers == s.peers && t.hostIndex == s.hostIndex
    && t.all.Keys == s.all.Keys && (forall id | id in s.all && id != h && id != p :: t.all[id] == s.all[id])
    && t.all[h].room == room && t.all[p].room == room && t.all[h].state == InRoom && t.all[p].state == InRoom
    && t.all[p].queue == s.all[p].queue + [RoomReady(room, h, s.all[h].info)]
                         + (if h == p then [Connect(room, p)] else [])
    && (h != p ==> t.all[h].queue == s.all[h].queue + [Connect(room, p)])
  }

  /** A target that is the id of a connected peer reaches that peer, whatever hosts are called. */
  lemma ConnectsById(s: Server, p: Id, target: Target, room: Id)
    requires Inv(s) && p in s.peers && target.asId in s.peers
    ensures Met(s, ConnectPeer(s, p, Some(target), room), p, target.asId, room)
  {
    ConnectEffect(s, p, Some(target), room, target.asId);
  }

  /** A target that is no such id but the name of a registered host reaches that host. */
  lemma ConnectsByName(s: Server, p: Id, target: Target, room: Id)
    requires Inv(s) && p in s.peers && target.asId !in s.peers && target.asName in s.hostIndex
    ensures s.hostIndex[target.asName] in s.peers
    ensures Met(s, ConnectPeer(s, p, Some(target), room), p, s.hostIndex[target.asName], room)
  {
    assert IndexEntry(s, target.asName, s.hostIndex[target.asName]);
    ConnectEffect(s, p, Some(target), room, s.hostIndex[target.asName]);
  }

  /** Peer p has been sent one message, and nothing else has changed but perhaps its role. */
  ghost predicate Answered(s: Server, t: Server, p: Id, m: Message)
    requires p in s.all
  {
    && p in t.all && t == s.(all := s.all[p := t.all[p]])
    && t.all[p] == s.all[p].(role := t.all[p].role, queue := s.all[p].queue + [m])
  }

  /** Any other target reaches nobody. */
  lemma ConnectsToNobody(s: Server, p: Id, target: Target, room: Id)
    requires Inv(s) && p in s.peers && target.asId !in s.peers && target.asName !in s.hostIndex
    ensures Answered(s, ConnectPeer(s, p, Some(target), room), p, Error(HostNotFound))
  {
    ConnectFails(s, p, Some(target), room);
  }

  /** A peer that were marked disconnected would not be reached, though still in the table. */
  lemma DisconnectedIsNotReached(s: Server, p: Id, target: Target, room: Id)
    requires Wired(s) && p in s.peers && target.asId in s.peers && s.all[target.asId].state == Disconnected
    ensures Answered(s, ConnectPeer(s, p, Some(target), room), p, Error(HostNotFound))
  {
    ConnectFails(s, p, Some(target), room);
  }

  /** A request that does not parse changes not even the role. */
  lemma UnparsedConnect(s: Server, p: Id, room: Id)
    requires Inv(s) && p in s.peers
    ensures var t := ConnectPeer(s, p, None, room);
      Answered(s, t, p, Error(InvalidPayload)) && t.all[p].role == s.all[p].role
  {
    var t := ConnectPeer(s, p, None, room);
    assert t.all == s.all[p := t.all[p]];
  }

  // ---- Register ----

  /** A space, tab, line feed, carriage return, vertical tab or form feed. */
  predicate Blank(c: char) {
    c in {' ', '\t', '\n', '\r', 11 as char, 12 as char}
  }

  lemma SpacesAreBlank(c: char)
    ensures IsSpace(c) <==> Blank(c)
  {
  }

  /** The part of a name from i to j, with nothing but blanks around it and none at its own ends. */
  ghost predicate Core(name: string, i: nat, j: nat) {
    && i <= j <= |name|
    && (forall k | 0 <= k < i :: Blank(name[k])) && (forall k | j <= k < |name| :: Blank(name[k]))
    && (i < j ==> !Blank(name[i]) && !Blank(name[j - 1]))
  }

  lemma SliceOfTail(s: string, i: nat, j: nat)
    requires i <= j < |s|
    ensures s[1..][i..j] == s[i + 1..j + 1]
  {
    assert forall k | 0 <= k < j - i :: s[1..][i..j][k] == s[1..][i + k] == s[i + 1 + k];
  }

  lemma SliceOfFront(s: string, i: nat, j: nat)
    requires i <= j < |s|
    ensures s[..|s| - 1][i..j] == s[i..j]
  {
    var front, part := s[..|s| - 1][i..j], s[i..j];
    assert forall k | 0 <= k < j - i :: front[k] == part[k];
  }

  /** Trimming removes blanks, all of them and nothing else, from the two ends. */
  lemma {:induction false} TrimSpaceMeaning(name: string) returns (i: nat, j: nat)
    ensures Core(name, i, j) && TrimSpace(name) == name[i..j]
    decreases |name|
  {
    if name != "" && IsSpace(name[0]) {
      var rest := name[1..];
      i, j := TrimSpaceMeaning(rest);
      SpacesAreBlank(name[0]);
      SliceOfTail(name, i, j);
      assert forall k | 0 < k < |name| :: name[k] == rest[k - 1];
      i, j := i + 1, j + 1;
    } else if name != "" && IsSpace(name[|name| - 1]) {
      var rest := name[..|name| - 1];
      i, j := TrimSpaceMeaning(rest);
      SpacesAreBlank(name[|name| - 1]);
      SliceOfFront(name, i, j);
    } else {
      i, j := 0, |name|;
      if name != "" {
        SpacesAreBlank(name[0]);
        SpacesAreBlank(name[|name| - 1]);
      }
    }
  }

  /**
   A registration is accepted exactly from a peer that has done nothing yet, with a name that
   is not empty once trimmed and at most 64 long, and at most 20 features; the host then
   stands in the index under that name, with those features.
   */
  lemma RegisterMeaning(s: Server, p: Id, reg: Registration)
    requires p in s.all
    ensures var t, n := Register(s, p, Some(reg)), TrimSpace(reg.name);
      if s.all[p].state == New && n != "" && |n| <= 64 && |reg.features| <= 20
      then
        t == s.(
          all := s.all[p := Peer(HostRole, Registered, HostInfo(p, n, reg.features), s.all[p].room,
                                 s.all[p].queue + [RegisterOk(p)])],
          hostIndex := s.hostIndex[n := p])
      else
        && Answered(s, t, p, Error(if s.all[p].state != New then InvalidState else InvalidPayload))
        && t.all[p].role == s.all[p].role
  {
    var t := Register(s, p, Some(reg));
    assert t.all == s.all[p := t.all[p]];
  }

  lemma UnparsedRegister(s: Server, p: Id)
    requires p in s.all
    ensures var t := Register(s, p, None);
      && Answered(s, t, p, Error(if s.all[p].state != New then InvalidState else InvalidPayload))
      && t.all[p].role == s.all[p].role
  {
    var t := Register(s, p, None);
    assert t.all == s.all[p := t.all[p]];
  }

  /** A host that has just registered is reached under its trimmed name by everyone. */
  lemma RegisteredNameConnects(s: Server, q: Id, reg: Registration, p: Id, target: Target, room: Id)
    requires Inv(s) && q in s.peers && p in s.peers && target.asId !in s.peers && target.asName == TrimSpace(reg.name)
    requires s.all[q].state == New && TrimSpace(reg.name) != "" && |TrimSpace(reg.name)| <= 64 && |reg.features| <= 20
    ensures var t := Register(s, q, Some(reg)); Wired(t) && Met(t, ConnectPeer(t, p, Some(target), room), p, q, room)
  {
    RegisterMeaning(s, q, reg);
    RegisterInv(s, q, Some(reg));
    ConnectsByName(Register(s, q, Some(reg)), p, target, room);
  }

  /** A peer that has just connected can register: it has no role, no room and no message yet. */
  lemma NewPeerCanRegister(s: Server, id: Id, reg: Registration)
    requires id !in s.all && TrimSpace(reg.name) != "" && |TrimSpace(reg.name)| <= 64 && |reg.features| <= 20
    ensures var t, n := Open(s, id), TrimSpace(reg.name);
      && t.peers == s.peers + {id} && t.all.Keys == s.all.Keys + {id} && t.all[id].role == NoRole
      && (forall q | q in s.all :: t.all[q] == s.all[q])
      && t.rooms == s.rooms && t.hostIndex == s.hostIndex
      && Register(t, id, Some(reg)).all[id]
         == Peer(HostRole, Registered, HostInfo(id, n, reg.features), 0, [RegisterOk(id)])
  {
    RegisterMeaning(Open(s, id), id, reg);
    assert [] + [RegisterOk(id)] == [RegisterOk(id)];
  }

  // ---- Update and list ----

  /** An update that gives features replaces those of the sender; nothing else changes. */
  lemma UpdateMeaning(s: Server, p: Id, features: Option<seq<string>>)
    requires p in s.all
    ensures var t := Update(s, p, features);
      && p in t.all && t == s.(all := s.all[p := t.all[p]])
      && t.all[p].info.features == (if features.Some? then features.value else s.all[p].info.features)
      && t.all[p] == s.all[p].(info := s.all[p].info.(features := t.all[p].info.features))
  {
    var t := Update(s, p, features);
    assert t.all == s.all[p := t.all[p]];
  }

  /** In every state a run can reach, a list shows the info of every registered host and no other. */
  lemma ListShowsEveryHost(s: Server, p: Id) returns (hosts: set<HostInfo>)
    requires Inv(s) && p in s.peers
    ensures forall info :: info in hosts <==> exists n :: n in s.hostIndex && info == s.all[s.hostIndex[n]].info
    ensures var t := ListHosts(s, p);
      && p in t.all && t == s.(all := s.all[p := t.all[p]])
      && t.all[p].queue == s.all[p].queue + [HostList(hosts)] && t.all[p].state == Registered
      && t.all[p].role == (if s.all[p].role == NoRole then ClientRole else s.all[p].role)
      && t.all[p].info == s.all[p].info && t.all[p].room == s.all[p].room
    ensures AllHosts(s) == hosts
  {
    hosts := AllHosts(s);
    var s1 := Put(s, p, AsClient(s.all[p]).(state := Registered));
    forall n | n in s.hostIndex ensures Listed(s1.all[s1.hostIndex[n]]) {
      assert IndexEntry(s, n, s.hostIndex[n]);
    }
    assert FilteredHosts(s1) == hosts;
    var t := ListHosts(s, p);
    assert t.all == s.all[p := t.all[p]];
  }
}
