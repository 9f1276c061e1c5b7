/**
 * The session registry of WebSocketConfig: which room and player each
 * WebSocket session belongs to. A disconnect of a registered session
 * publishes one player-disconnect event and forgets the session.
 */
module SessionRegistry {
  import opened Wrappers
  import opened Entities

  type SessionId = string

  datatype SessionPlayerInfo = SessionPlayerInfo(roomCode: Code, playerId: PlayerId)

  /** The PlayerDisconnectEvent handed to the event publisher. */
  datatype DisconnectEvent = PlayerDisconnect(roomCode: Code, playerId: PlayerId, sessionId: SessionId)

  /** The event a disconnect of `sid` publishes: one for a registered session, none otherwise. */
  function EventFor(sessions: map<SessionId, SessionPlayerInfo>, sid: SessionId): (r: seq<DisconnectEvent>)
    ensures sid !in sessions ==> r == []
    ensures sid in sessions ==>
      r == [PlayerDisconnect(sessions[sid].roomCode, sessions[sid].playerId, sid)]
  {
    if sid in sessions then [PlayerDisconnect(sessions[sid].roomCode, sessions[sid].playerId, sid)] else []
  }

  class Registry {
    var sessions: map<SessionId, SessionPlayerInfo>
    /** Every event handed to the publisher, in order. */
    var published: seq<DisconnectEvent>

    constructor ()
      ensures sessions == map[] && published == []
    {
      sessions, published := map[], [];
    }

    /** `registerSessionPlayer`: a later registration of the same session replaces the earlier one. */
    method Register(sid: SessionId, code: Code, player: PlayerId)
      modifies this
      ensures sessions == old(sessions)[sid := SessionPlayerInfo(code, player)]
      ensures published == old(published)
    {
      sessions := sessions[sid := SessionPlayerInfo(code, player)];
    }

    /** `unregisterSessionPlayer`: returns the entry removed, if there was one. */
    method Unregister(sid: SessionId) returns (removed: Option<SessionPlayerInfo>)
      modifies this
      ensures sessions == old(sessions) - {sid}
      ensures sid !in old(sessions) ==> sessions == old(sessions) && removed.None?
      ensures sid in old(sessions) ==> removed == Some(old(sessions)[sid])
      ensures published == old(published)
    {
      if sid in sessions {
        removed := Some(sessions[sid]);
      } else {
        removed := None;
      }
      sessions := sessions - {sid};
    }

    /**
     * `handleWebSocketDisconnectListener`. The event is handed to the
     * publisher; whether publishing then throws or not, the entry is removed.
     */
    method Disconnect(sid: SessionId)
      modifies this
      ensures published == old(published) + EventFor(old(sessions), sid)
      ensures sessions == old(sessions) - {sid}
      ensures sid !in old(sessions) ==> sessions == old(sessions) && published == old(published)
    {
      if sid !in sessions {
        return;
      }
      var info := sessions[sid];
      published := published + [PlayerDisconnect(info.roomCode, info.playerId, sid)];
      sessions := sessions - {sid};
    }
  }

  /** A disconnect right after a registration reports the registered room and player. */
  lemma RegisteredThenDisconnected(sessions: map<SessionId, SessionPlayerInfo>, sid: SessionId, code: Code, player: PlayerId)
    ensures EventFor(sessions[sid := SessionPlayerInfo(code, player)], sid) == [PlayerDisconnect(code, player, sid)]
    ensures sessions[sid := SessionPlayerInfo(code, player)] - {sid} == sessions - {sid}
  {
  }
}
