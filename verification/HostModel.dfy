/**
 The host daemon's session table as a function on values: a map from room id to the id
 of the client the session serves, and the handling of one signaling message.
 */
module HostModel {
  import opened Options
  import opened SignalModel

  type Sessions = map<Id, Id>

  const DEFAULT_MAX_SESSIONS := 10

  /** An allow-list entry: everyone, or one client. */
  datatype Allowance = Anyone | Client(id: Id)

  /** `maxSessions` not above 0 means no limit; an empty allow list admits everyone. */
  datatype Config = Config(maxSessions: int, allowList: seq<Allowance>)

  predicate Admits(cfg: Config, client: Id) {
    cfg.allowList == [] || Anyone in cfg.allowList || Client(client) in cfg.allowList
  }

  predicate Full(cfg: Config, n: nat) {
    cfg.maxSessions > 0 && n >= cfg.maxSessions
  }

  /** `engineOk` says whether the WebRTC engine could be created. */
  function ConnectRequest(cfg: Config, t: Sessions, room: Id, client: Id, engineOk: bool): Sessions {
    if Full(cfg, |t|) || !Admits(cfg, client) || !engineOk then t else t[room := client]
  }

  function PeerDisconnect(t: Sessions, peer: Id): Sessions {
    map r | r in t && t[r] != peer :: t[r]
  }

  function Handle(cfg: Config, t: Sessions, m: Message, engineOk: bool): Sessions {
    match m
    case Connect(room, client) => ConnectRequest(cfg, t, room, client, engineOk)
    case PeerLeft(peer) => PeerDisconnect(t, peer)
    case _ => t
  }

  /** The client whose session a relayed message is handed to. */
  function Forwarded(t: Sessions, room: Id): Option<Id> {
    if room in t then Some(t[room]) else None
  }

  /**
   A Connect opens its room for its client if and only if the table is below the limit, or
   there is none, the engine works, and the allow list is empty or some entry of it is
   everyone or that client. Otherwise the table is as it was.
   */
  lemma OpensIff(cfg: Config, t: Sessions, room: Id, client: Id, engineOk: bool)
    ensures var u := Handle(cfg, t, Connect(room, client), engineOk);
      if && (cfg.maxSessions <= 0 || |t| < cfg.maxSessions) && engineOk
         && (|| |cfg.allowList| == 0
             || exists i :: 0 <= i < |cfg.allowList|
                            && (cfg.allowList[i] == Anyone || cfg.allowList[i] == Client(client)))
      then u == t[room := client]
      else u == t
  {
    if Anyone in cfg.allowList {
      var i :| 0 <= i < |cfg.allowList| && cfg.allowList[i] == Anyone;
    }
    if Client(client) in cfg.allowList {
      var i :| 0 <= i < |cfg.allowList| && cfg.allowList[i] == Client(client);
    }
  }

  /** The news that a peer has left ends exactly the sessions of that peer. */
  lemma EndsIff(cfg: Config, t: Sessions, peer: Id, engineOk: bool, room: Id)
    ensures var u := Handle(cfg, t, PeerLeft(peer), engineOk);
      && (room in u <==> room in t && t[room] != peer)
      && (room in u ==> u[room] == t[room])
  {
  }

  lemma HandleBound(cfg: Config, t: Sessions, m: Message, engineOk: bool)
    requires cfg.maxSessions > 0 && |t| <= cfg.maxSessions
    ensures |Handle(cfg, t, m, engineOk)| <= cfg.maxSessions
  {
    match m
    case Connect(room, client) =>
      assert t[room := client].Keys == t.Keys + {room};
    case PeerLeft(peer) =>
      Smaller(t, PeerDisconnect(t, peer));
    case _ =>
  }

  lemma Smaller(t: Sessions, u: Sessions)
    requires u.Keys <= t.Keys
    ensures |u| <= |t|
  {
    assert |t.Keys| == |u.Keys| + |t.Keys - u.Keys|;
  }
}
