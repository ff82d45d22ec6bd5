/**
 The host daemon as it runs: a table of session objects that message handlers insert
 into and delete from in place, closing the engine of every session they drop.
 */
module HostDaemonObjects {
  import opened Options
  import S = SignalModel
  import H = HostModel

  class Session {
    const clientID: S.Id
    const roomID: S.Id
    var engineClosed: bool

    constructor (clientID: S.Id, roomID: S.Id)
      ensures this.clientID == clientID && this.roomID == roomID && !engineClosed
    {
      this.clientID, this.roomID, engineClosed := clientID, roomID, false;
    }
  }

  class Daemon {
    const cfg: H.Config
    var sessions: map<S.Id, Session>

    /** Every session is filed under its own room, and its engine is open. */
    ghost predicate Valid()
      reads this, sessions.Values
    {
      forall r | r in sessions :: sessions[r].roomID == r && !sessions[r].engineClosed
    }

    ghost function Table(): H.Sessions
      reads this
    {
      map r | r in sessions :: sessions[r].clientID
    }

    constructor (maxSessions: int, allowList: seq<H.Allowance>)
      ensures Valid() && Table() == map[] && sessions == map[]
      ensures cfg.allowList == allowList
      ensures cfg.maxSessions == if maxSessions == 0 then 10 else maxSessions
    {
      cfg := H.Config(if maxSessions == 0 then H.DEFAULT_MAX_SESSIONS else maxSessions, allowList);
      sessions := map[];
    }

    method Allowed(client: S.Id) returns (ok: bool)
      ensures ok == H.Admits(cfg, client)
      ensures ok <==>
                || |cfg.allowList| == 0
                || exists i :: 0 <= i < |cfg.allowList|
                               && (cfg.allowList[i] == H.Anyone || cfg.allowList[i] == H.Client(client))
    {
      if |cfg.allowList| == 0 {
        return true;
      }
      ok := false;
      for i := 0 to |cfg.allowList|
        invariant !ok
        invariant H.Anyone !in cfg.allowList[..i] && H.Client(client) !in cfg.allowList[..i]
      {
        if cfg.allowList[i] == H.Client(client) || cfg.allowList[i] == H.Anyone {
          return true;
        }
      }
      assert cfg.allowList[..|cfg.allowList|] == cfg.allowList;
    }

    method HandleConnectRequest(room: S.Id, client: S.Id, engineOk: bool)
      requires Valid()
      modifies this`sessions
      ensures Valid()
      ensures Table() == H.ConnectRequest(cfg, old(Table()), room, client, engineOk)
      ensures forall r | r in old(sessions) && r != room :: r in sessions && sessions[r] == old(sessions)[r]
    {
      assert Table().Keys == sessions.Keys;
      var activeSessions := |sessions|;
      if cfg.maxSessions > 0 && activeSessions >= cfg.maxSessions {
        return;
      }
      var allowed := Allowed(client);
      if !allowed {
        return;
      }
      if !engineOk {
        return;
      }
      var session := new Session(client, room);
      sessions := sessions[room := session];
    }

    /** Closes the engine and drops the session. */
    method CleanupSessionLocked(room: S.Id, session: Session)
      requires room in sessions && sessions[room] == session
      modifies this`sessions, session`engineClosed
      ensures session.engineClosed && sessions == old(sessions) - {room}
    {
      session.engineClosed := true;
      sessions := sessions - {room};
    }

    method CleanupSession(room: S.Id)
      requires Valid()
      modifies this`sessions, sessions.Values
      ensures Valid() && sessions == old(sessions) - {room}
      ensures room in old(sessions) ==> old(sessions)[room].engineClosed
      ensures Table() == old(Table()) - {room}
    {
      if room !in sessions {
        return;
      }
      CleanupSessionLocked(room, sessions[room]);
    }

    /** The loop that deletes every session of a departed peer while walking the table. */
    method HandlePeerDisconnect(peer: S.Id)
      requires Valid()
      modifies this`sessions, sessions.Values
      ensures Valid()
      ensures Table() == H.PeerDisconnect(old(Table()), peer)
      ensures forall r | r in sessions :: r in old(sessions) && sessions[r] == old(sessions)[r]
      ensures forall r | r in old(sessions) && r !in sessions :: old(sessions)[r].engineClosed
    {
      var todo := sessions.Keys;
      while todo != {}
        invariant todo <= sessions.Keys <= old(sessions).Keys
        invariant forall r | r in sessions :: sessions[r] == old(sessions)[r]
        invariant Valid()
        invariant forall r | r in old(sessions) && r !in todo :: r in sessions <==> old(sessions)[r].clientID != peer
        invariant forall r | r in old(sessions) && r !in sessions :: old(sessions)[r].engineClosed
        decreases todo
      {
        var id :| id in todo;
        todo := todo - {id};
        var sess := sessions[id];
        if sess.clientID == peer {
          sess.engineClosed := true;
          CleanupSessionLocked(id, sess);
        }
      }
    }

    /** The session a relayed message goes to. */
    method GetSession(room: S.Id) returns (session: Session?)
      ensures match H.Forwarded(Table(), room)
        case None => session == null
        case Some(client) => session != null && session == sessions[room] && session.clientID == client
    {
      if room in sessions {
        return sessions[room];
      }
      return null;
    }
  }
}
