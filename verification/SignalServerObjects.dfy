/**
 The signaling server as it runs: peer objects shared by the peer table, the rooms and
 the host index, and updated in place by the handlers. Each handler is proved to be the
 corresponding step of the state machine, aliasing included: the host of a connect may
 be its sender, and a room may hold a peer that has already left.
 */
module SignalServerObjects {
  import opened Options
  import S = SignalModel
  import I = SignalInvariants

  class Peer {
    const id: S.Id
    var role: S.Role
    var state: S.PeerState
    var info: S.HostInfo
    var roomID: S.Id
    var queue: seq<S.Message>

    constructor (id: S.Id)
      ensures this.id == id
      ensures Value() == S.Peer(S.NoRole, S.New, S.NO_INFO, 0, [])
    {
      this.id := id;
      role, state, info, roomID, queue := S.NoRole, S.New, S.NO_INFO, 0, [];
    }

    ghost function Value(): S.Peer
      reads this
    {
      S.Peer(role, state, info, roomID, queue)
    }
  }

  datatype Room = Room(id: S.Id, host: Peer, client: Peer)

  class Server {
    var peers: map<S.Id, Peer>
    var rooms: map<S.Id, Room>
    var hostIndex: map<string, Peer>
    var peerCount: int
    var roomCount: int
    /** Every peer that ever connected, and the state all these objects stand for. */
    ghost var repr: set<Peer>
    ghost var model: S.Server

    ghost predicate Valid()
      reads this, repr
    {
      PeersMatch() && RoomsMatch() && TablesMatch()
    }

    /** Ids are unique, and the peer objects hold what the model says of them. */
    ghost predicate PeersMatch()
      reads this`repr, this`model, repr
    {
      && (forall p | p in repr :: p.id in model.all && model.all[p.id] == p.Value())
      && (forall p, q | p in repr && q in repr && p.id == q.id :: p == q)
    }

    ghost predicate RoomsMatch()
      reads this`repr, this`rooms, this`model
    {
      && model.rooms.Keys == rooms.Keys
      && forall r | r in rooms ::
           && rooms[r].id == r
           && rooms[r].host in repr && model.rooms[r].host == rooms[r].host.id
           && rooms[r].client in repr && model.rooms[r].client == rooms[r].client.id
    }

    ghost predicate TablesMatch()
      reads this`repr, this`peers, this`hostIndex, this`peerCount, this`roomCount, this`model
    {
      && model.peers == peers.Keys
      && (forall id | id in peers :: peers[id] in repr && peers[id].id == id)
      && model.hostIndex.Keys == hostIndex.Keys
      && (forall n | n in hostIndex :: hostIndex[n] in repr && model.hostIndex[n] == hostIndex[n].id)
      && model.peerCount == peerCount
      && model.roomCount == roomCount
    }

    ghost predicate Connected(p: Peer)
      reads this
    {
      p.id in peers && peers[p.id] == p
    }

    constructor ()
      ensures Valid() && model == S.EMPTY && repr == {}
    {
      peers, rooms, hostIndex := map[], map[], map[];
      peerCount, roomCount := 0, 0;
      repr, model := {}, S.EMPTY;
    }

    lemma ValidIsWired()
      requires Valid()
      ensures S.Wired(model)
    {
    }

    /** A new connection. */
    method OpenPeer(id: S.Id) returns (peer: Peer)
      requires Valid() && S.Enabled(model, S.OpOpen(id))
      modifies this`peers, this`peerCount, this`repr, this`model
      ensures Valid() && fresh(peer) && peer.id == id && Connected(peer) && repr == old(repr) + {peer}
      ensures model == S.Open(old(model), id)
    {
      peer := new Peer(id);
      peers := peers[id := peer];
      peerCount := peerCount + 1;
      repr, model := repr + {peer}, S.Open(model, id);
    }

    /** Record in the model what the peer object now holds. */
    ghost method Record(peer: Peer)
      requires peer in repr && RoomsMatch() && TablesMatch()
      requires forall p, q | p in repr && q in repr && p.id == q.id :: p == q
      requires forall p | p in repr && p != peer :: p.id in model.all && model.all[p.id] == p.Value()
      modifies this`model
      ensures Valid() && model == S.Put(old(model), peer.id, peer.Value())
    {
      model := S.Put(model, peer.id, peer.Value());
    }

    method Send(peer: Peer, m: S.Message)
      requires Valid() && peer in repr
      modifies peer`queue, this`model
      ensures Valid() && model == S.Send(old(model), peer.id, m)
    {
      peer.queue := peer.queue + [m];
      Record(peer);
    }

    method HandleRegister(peer: Peer, payload: Option<S.Registration>)
      requires Valid() && Connected(peer)
      modifies this`hostIndex, this`model, peer
      ensures Valid() && model == S.Register(old(model), peer.id, payload)
    {
      if peer.state != S.New {
        Send(peer, S.Error(S.InvalidState));
        return;
      }
      if payload.None? {
        Send(peer, S.Error(S.InvalidPayload));
        return;
      }
      var name := S.TrimSpace(payload.value.name);
      if name == "" || |name| > S.MAX_HOST_NAME_LEN || |payload.value.features| > S.MAX_FEATURES_COUNT {
        Send(peer, S.Error(S.InvalidPayload));
        return;
      }
      peer.role := S.HostRole;
      peer.state := S.Registered;
      peer.info := S.HostInfo(peer.id, name, payload.value.features);
      Record(peer);
      hostIndex := hostIndex[name := peer];
      model := model.(hostIndex := model.hostIndex[name := peer.id]);
      Send(peer, S.RegisterOk(peer.id));
    }

    method HandleUpdate(peer: Peer, features: Option<seq<string>>)
      requires Valid() && Connected(peer)
      modifies peer`info, this`model
      ensures Valid() && model == S.Update(old(model), peer.id, features)
    {
      if features.Some? {
        peer.info := peer.info.(features := features.value);
        Record(peer);
      }
    }

    /** The loop both host lists run: collect the index entries, optionally only those in a listed state. */
    method CollectHosts(filtered: bool) returns (hosts: set<S.HostInfo>)
      requires Valid()
      ensures S.Wired(model) && hosts == if filtered then S.FilteredHosts(model) else S.AllHosts(model)
    {
      ValidIsWired();
      hosts := {};
      var todo := hostIndex.Keys;
      while todo != {}
        invariant todo <= hostIndex.Keys
        invariant hosts == set n | n in hostIndex.Keys - todo
                                   && (!filtered || hostIndex[n].state == S.Registered
                                       || hostIndex[n].state == S.InRoom)
                               :: hostIndex[n].info
        decreases todo
      {
        var n :| n in todo;
        var p := hostIndex[n];
        if !filtered || p.state == S.Registered || p.state == S.InRoom {
          hosts := hosts + {p.info};
        }
        todo := todo - {n};
      }
      assert forall n | n in hostIndex :: model.all[model.hostIndex[n]] == hostIndex[n].Value();
    }

    method HandleListHosts(peer: Peer)
      requires Valid() && Connected(peer)
      modifies peer, this`model
      ensures Valid() && S.Wired(old(model)) && model == S.ListHosts(old(model), peer.id)
    {
      ValidIsWired();
      if peer.role == S.NoRole {
        peer.role := S.ClientRole;
      }
      peer.state := S.Registered;
      Record(peer);
      var hosts := CollectHosts(true);
      Send(peer, S.HostList(hosts));
    }

    method HandleListHostsAPI() returns (hosts: set<S.HostInfo>)
      requires Valid()
      ensures S.Wired(model) && hosts == S.AllHosts(model)
    {
      hosts := CollectHosts(false);
    }

    /** A peer id first, then a host name. */
    method FindHost(target: S.Target) returns (host: Peer?)
      requires Valid()
      ensures host == null <==> S.Lookup(model, target).None?
      ensures host != null ==> host in repr && S.Lookup(model, target) == Some(host.id)
    {
      if target.asId in peers {
        return peers[target.asId];
      }
      if target.asName in hostIndex {
        return hostIndex[target.asName];
      }
      return null;
    }

    method AddRoom(roomID: S.Id, host: Peer, client: Peer)
      requires Valid() && host in repr && client in repr
      modifies this`rooms, this`roomCount, this`model
      ensures Valid()
      ensures model == old(model).(rooms := old(model).rooms[roomID := S.Room(host.id, client.id)],
                                   roomCount := old(model).roomCount + 1)
    {
      rooms := rooms[roomID := Room(roomID, host, client)];
      roomCount := roomCount + 1;
      model := model.(rooms := model.rooms[roomID := S.Room(host.id, client.id)], roomCount := model.roomCount + 1);
    }

    method SetRoom(peer: Peer, roomID: S.Id, state: S.PeerState)
      requires Valid() && peer in repr
      modifies peer`roomID, peer`state, this`model
      ensures Valid() && model == S.Put(old(model), peer.id, old(model).all[peer.id].(room := roomID, state := state))
      ensures peer.roomID == roomID
    {
      peer.roomID := roomID;
      peer.state := state;
      Record(peer);
    }

    method BecomeClient(peer: Peer)
      requires Valid() && peer in repr
      modifies peer`role, this`model
      ensures Valid() && model == S.Put(old(model), peer.id, S.AsClient(old(model).all[peer.id]))
    {
      if peer.role == S.NoRole {
        peer.role := S.ClientRole;
      }
      Record(peer);
    }

    method Meet(host: Peer, peer: Peer, roomID: S.Id)
      requires Valid() && host in repr && peer in repr
      modifies this`rooms, this`roomCount, this`model, host, peer
      ensures Valid() && model == S.Meet(old(model), host.id, peer.id, roomID)
    {
      AddRoom(roomID, host, peer);
      SetRoom(host, roomID, S.InRoom);
      SetRoom(peer, roomID, S.InRoom);
      Send(peer, S.RoomReady(roomID, host.id, host.info));
      Send(host, S.Connect(roomID, peer.id));
    }

    method HandleConnect(peer: Peer, target: Option<S.Target>, roomID: S.Id)
      requires Valid() && Connected(peer)
      modifies this`rooms, this`roomCount, this`model, repr
      ensures Valid() && S.Wired(old(model)) && model == S.ConnectPeer(old(model), peer.id, target, roomID)
    {
      ValidIsWired();
      if target.None? {
        Send(peer, S.Error(S.InvalidPayload));
        return;
      }
      BecomeClient(peer);
      ValidIsWired();
      var host := FindHost(target.value);
      if host == null || host.state == S.Disconnected {
        Send(peer, S.Error(S.HostNotFound));
        return;
      }
      Meet(host, peer, roomID);
    }

    method OtherMember(room: Room, peer: Peer) returns (other: Peer)
      ensures other == room.host || other == room.client
      ensures other.id == S.Other(S.Room(room.host.id, room.client.id), peer.id)
    {
      if peer.id == room.host.id {
        other := room.client;
      } else {
        other := room.host;
      }
    }

    method RelayToRoom(sender: Peer, body: string)
      requires Valid() && Connected(sender)
      modifies this`model, repr
      ensures Valid() && S.Wired(old(model)) && model == S.Relay(old(model), sender.id, body)
    {
      ValidIsWired();
      if sender.roomID !in rooms {
        Send(sender, S.Error(S.NoRoom));
        return;
      }
      var room := rooms[sender.roomID];
      var target := OtherMember(room, sender);
      Send(target, S.Relayed(room.id, sender.id, body));
    }

    method DropRoom(roomID: S.Id)
      requires Valid()
      modifies this`rooms, this`roomCount, this`model
      ensures Valid()
      ensures model == old(model).(rooms := old(model).rooms - {roomID}, roomCount := old(model).roomCount - 1)
    {
      rooms := rooms - {roomID};
      roomCount := roomCount - 1;
      model := model.(rooms := model.rooms - {roomID}, roomCount := model.roomCount - 1);
    }

    /** When a peer parts from itself, its own room id is gone by the time the room is looked up. */
    method Part(peer: Peer, other: Peer)
      requires Valid() && peer in repr && other in repr
      modifies this`rooms, this`roomCount, this`model, other
      ensures Valid() && model == S.Part(old(model), peer.id, other.id)
    {
      SetRoom(other, 0, S.Registered);
      Send(other, S.PeerLeft(peer.id));
      DropRoom(peer.roomID);
    }

    method LeaveRoom(peer: Peer)
      requires Valid() && Connected(peer)
      modifies this`rooms, this`roomCount, this`model, repr
      ensures Valid() && S.Wired(old(model)) && model == S.LeaveRoom(old(model), peer.id)
    {
      ValidIsWired();
      if peer.roomID in rooms {
        var other := OtherMember(rooms[peer.roomID], peer);
        Part(peer, other);
      }
    }

    /**
     Walks the index and stops at the first entry it deletes. That this removes everything
     the peer owns is where its owning at most one entry is needed.
     */
    method DropFromIndex(peer: Peer)
      requires Valid() && peer in repr
      requires forall m, n | m in hostIndex && n in hostIndex && hostIndex[m] == peer && hostIndex[n] == peer :: m == n
      modifies this`hostIndex, this`model
      ensures Valid()
      ensures model == old(model).(hostIndex :=
                map n | n in old(model).hostIndex && old(model).hostIndex[n] != peer.id :: old(model).hostIndex[n])
    {
      var todo := hostIndex.Keys;
      while todo != {}
        invariant todo <= hostIndex.Keys && hostIndex == old(hostIndex)
        invariant forall n | n in hostIndex && n !in todo :: hostIndex[n] != peer
        decreases todo
      {
        var n :| n in todo;
        if hostIndex[n].id == peer.id {
          hostIndex := hostIndex - {n};
          break;
        }
        todo := todo - {n};
      }
      model := model.(hostIndex := map n | n in model.hostIndex && model.hostIndex[n] != peer.id :: model.hostIndex[n]);
    }

    lemma OneEntry(peer: Peer)
      requires Valid() && peer in repr && I.Index(model)
      ensures forall m, n | m in hostIndex && n in hostIndex && hostIndex[m] == peer && hostIndex[n] == peer :: m == n
    {
      forall m, n | m in hostIndex && n in hostIndex && hostIndex[m] == peer && hostIndex[n] == peer ensures m == n {
        assert I.IndexEntry(model, m, model.hostIndex[m]) && I.IndexEntry(model, n, model.hostIndex[n]);
      }
    }

    method DropPeer(peer: Peer)
      requires Valid() && Connected(peer)
      modifies this`peers, this`peerCount, this`model, peer`state
      ensures Valid()
      ensures model == S.Put(old(model), peer.id, old(model).all[peer.id].(state := S.Disconnected)).(
                         peers := old(model).peers - {peer.id}, peerCount := old(model).peerCount - 1)
    {
      peer.state := S.Disconnected;
      Record(peer);
      peers := peers - {peer.id};
      peerCount := peerCount - 1;
      model := model.(peers := model.peers - {peer.id}, peerCount := model.peerCount - 1);
    }

    /** A departure. */
    method CleanupPeer(peer: Peer)
      requires Valid() && Connected(peer) && I.Inv(model)
      modifies this`peers, this`rooms, this`hostIndex, this`peerCount, this`roomCount, this`model, repr
      ensures Valid() && S.Wired(old(model)) && model == S.Leave(old(model), peer.id)
    {
      OneEntry(peer);
      LeaveRoom(peer);
      DropFromIndex(peer);
      DropPeer(peer);
    }
  }
}
