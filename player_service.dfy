/**
 * PlayerService's `leaveRoom`: the player must exist and belong to the
 * requested room. The leave is then handed to GameRoomService's
 * disconnection handling. If that hand-off fails, the player is marked
 * as left here and PLAYER_LEFT goes out. `delegateFails` says whether
 * the hand-off threw.
 */
module PlayerLeave {
  import opened Wrappers
  import opened Entities
  import opened Store
  import opened PlayerRepository
  import opened RoomLifecycle

  /** The fallback: leftAt is set, PLAYER_LEFT goes out, then the room snapshot if the room still exists. */
  function Fallback(s: Store, code: Code, player: PlayerId): Store
    requires player in s.players
  {
    var s1 := Emit(s.(players := s.players[player := s.players[player].(hasLeft := true)]), PlayerLeft(code, player));
    if code in s.rooms then Emit(s1, RoomStateUpdate(code)) else s1
  }

  function LeaveRoomBody(s: Store, code: Code, player: PlayerId, delegateFails: bool): Step {
    if player !in s.players then Fail(PlayerNotFound, s)
    else if s.players[player].roomCode != code then Fail(WrongRoomCode, s)
    else if !delegateFails then Ok(HandlePlayerDisconnection(s, code, player))
    else Ok(Fallback(s, code, player))
  }

  function LeaveRoom(s: Store, code: Code, player: PlayerId, delegateFails: bool): Store {
    Commit(s, LeaveRoomBody(s, code, player, delegateFails))
  }

  /** The two rejections, and nothing changes when either applies. */
  lemma LeaveRoomGuards(s: Store, code: Code, player: PlayerId, delegateFails: bool)
    ensures var st := LeaveRoomBody(s, code, player, delegateFails);
      (st.err == Some(PlayerNotFound) <==> player !in s.players) &&
      (st.err == Some(WrongRoomCode) <==> player in s.players && s.players[player].roomCode != code) &&
      (st.err.None? <==> player in s.players && s.players[player].roomCode == code)
    ensures LeaveRoomBody(s, code, player, delegateFails).err.Some? ==> LeaveRoom(s, code, player, delegateFails) == s
  {
  }

  /** A valid leave is exactly the disconnection handling when the hand-off succeeds. */
  lemma LeaveDelegates(s: Store, code: Code, player: PlayerId)
    requires player in s.players && s.players[player].roomCode == code
    ensures LeaveRoom(s, code, player, false) == HandlePlayerDisconnection(s, code, player)
  {
  }

  /** When the hand-off fails, only the leaver's row changes, and only its leftAt. */
  lemma FallbackMarksLeft(s: Store, code: Code, player: PlayerId)
    requires player in s.players && s.players[player].roomCode == code
    ensures var t := LeaveRoom(s, code, player, true);
      t.players.Keys == s.players.Keys &&
      t.players[player] == s.players[player].(hasLeft := true) &&
      (forall id :: id in s.players && id != player ==> t.players[id] == s.players[id]) &&
      t.rooms == s.rooms && t.rounds == s.rounds && t.votes == s.votes && t.messages == s.messages &&
      t.nextPlayerId == s.nextPlayerId &&
      t.events == s.events + [PlayerLeft(code, player)] + (if code in s.rooms then [RoomStateUpdate(code)] else [])
  {
  }

  /** The leaving player is a deleted row or a departed one. */
  predicate GoneFrom(t: Store, player: PlayerId) {
    player !in t.players || t.players[player].hasLeft
  }

  /**
   * However the leave goes, the leaver is no longer among the room's
   * present players: a host's room is deleted with its rows, and anyone
   * else is marked as departed. The player's room exists, as its foreign
   * key guarantees.
   */
  lemma {:induction false} LeaverNotActive(s: Store, code: Code, player: PlayerId, delegateFails: bool)
    requires player in s.players && s.players[player].roomCode in s.rooms
    requires LeaveRoomBody(s, code, player, delegateFails).err.None?
    ensures GoneFrom(LeaveRoom(s, code, player, delegateFails), player)
    ensures player !in Active(LeaveRoom(s, code, player, delegateFails), code)
  {
    var t := LeaveRoom(s, code, player, delegateFails);
    if !delegateFails {
      if s.players[player].isHost {
        assert t == RemoveRoom(Emit(s, RoomDeleted(code, player)), code);
        assert player !in t.players;
      } else if s.rooms[code].state == ROUND {
        var s1 := s.(players := s.players[player := s.players[player].(hasLeft := true)]);
        var active := Active(s1, code);
        var s3 := CleanupCurrentRoundData(s1, code);
        var s4 := s3.(rooms := s3.rooms[code := s3.rooms[code].(state := LOBBY, currentRound := None)]);
        assert player !in active;
        assert t.players == ResetAllPlayersForLobby(s4.players, active);
        assert t.players[player] == s1.players[player];
      }
    }
    assert GoneFrom(t, player);
  }
}

/** `leaveRoom` on the database object. */
module PlayerService {
  import opened Wrappers
  import opened Entities
  import opened Store
  import GameRoomService
  import PlayerLeave

  method LeaveRoom(db: Db, code: Code, player: PlayerId, delegateFails: bool) returns (err: Option<Error>)
    modifies db
    ensures err == PlayerLeave.LeaveRoomBody(old(db.State()), code, player, delegateFails).err
    ensures db.State() == PlayerLeave.LeaveRoom(old(db.State()), code, player, delegateFails)
  {
    if player !in db.players {
      return Some(PlayerNotFound);
    }
    var p := db.players[player];
    if p.roomCode != code {
      return Some(WrongRoomCode);
    }
    if !delegateFails {
      GameRoomService.HandlePlayerDisconnection(db, code, player);
      return None;
    }
    db.players := db.players[player := p.(hasLeft := true)];
    db.Send(PlayerLeft(code, player));
    if code in db.rooms {
      db.Send(RoomStateUpdate(code));
    }
    return None;
  }
}
