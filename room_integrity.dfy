/**
 * The room life cycle keeps the tables consistent: starting a game, a
 * player leaving or disconnecting, and moving the players of a finished
 * game into a new room.
 */
module RoomIntegrity {
  import opened Wrappers
  import opened Entities
  import opened Store
  import opened PlayerRepository
  import opened Roles
  import opened RoomCodes
  import opened RoomLifecycle
  import opened RoomLifecycleProofs
  import opened PlayerLeave
  import opened VoteRepository

  /** Dealing changes no key column of any player row. */
  lemma DealtKeepsRows(m0: map<PlayerId, Player>, m: map<PlayerId, Player>, alive: seq<PlayerId>, theme: Theme, liar: PlayerId)
    requires Dealt(m0, m, alive, theme, liar)
    ensures SameRows(m0, m)
  {
    forall id | id in m0 ensures KeyColumns(m[id]) == KeyColumns(m0[id]) {
      if id in alive {
        assert SameIdentity(m[id], m0[id]);
      }
    }
  }

  /** Dealing the alive players of a room keeps the tables consistent. */
  lemma DealKeepsValid(s: Store, code: Code, d: RoundDraw)
    requires Valid(s) && code in s.rooms && |Alive(s, code)| >= 3
    ensures Valid(s.(players := Assign(s.players, Alive(s, code), s.rooms[code].theme, d)))
  {
    var alive := Alive(s, code);
    var liar := AssignDeals(s.players, alive, s.rooms[code].theme, d);
    DealtKeepsRows(s.players, Assign(s.players, alive, s.rooms[code].theme, d), alive, s.rooms[code].theme, liar);
    SameRowsKeepValid(s, Assign(s.players, alive, s.rooms[code].theme, d));
  }

  /** GameRoomService's `startNewRound` keeps the tables consistent in each of its three outcomes. */
  lemma RoundStartKeepsValid(s: Store, code: Code, idx: int, d: RoundDraw)
    requires Valid(s) && code in s.rooms
    ensures Valid(StartNewRound(s, code, idx, d))
  {
    var key := RoundKey(code, idx);
    if key in s.rounds {
      StartNewRoundOnce(s, code, idx, d);
    } else if |Alive(s, code)| < 3 {
      AliveAreActive(s, code);
      assert StartNewRound(s, code, idx, d) == EndGame(s, code);
      RoomUpdateKeepsValid(s, code, s.rooms[code].(state := RoomState.END));
    } else {
      var s1 := s.(players := Assign(s.players, Alive(s, code), s.rooms[code].theme, d));
      DealKeepsValid(s, code, d);
      AddRoundKeepsValid(s1, code, idx);
      StartNewRoundDeals(s, code, idx, d);
    }
  }

  /** `startGame` keeps the tables consistent, whether it succeeds or is refused. */
  lemma StartGameKeepsValid(s: Store, code: Code, host: PlayerId, d: RoundDraw)
    requires Valid(s)
    ensures Valid(StartGame(s, code, host, d))
  {
    var st := StartGameBody(s, code, host, d);
    if st.err.None? {
      StartGameIs(s, code, host, d);
      RoomUpdateKeepsValid(s, code, s.rooms[code].(state := ROUND, currentRound := Some(1)));
      RoundStartKeepsValid(Opened(s, code), code, 1, d);
      EmitKeepsValid(StartNewRound(Opened(s, code), code, 1, d), GameStarted(code));
    }
    CommitKeepsValid(s, st);
  }

  /** Removing a room with everything it holds leaves no dangling reference. */
  lemma RemoveRoomKeepsValid(s: Store, code: Code)
    requires Valid(s)
    ensures Valid(RemoveRoom(s, code))
  {
    var t := RemoveRoom(s, code);
    forall a, b | a in t.players && b in t.players && ActiveHost(t.players[a]) && ActiveHost(t.players[b]) &&
      t.players[a].roomCode == t.players[b].roomCode
      ensures a == b
    {
      assert ActiveHost(s.players[a]) && ActiveHost(s.players[b]);
    }
  }

  /** Marking a player as left keeps the tables consistent. */
  lemma LeaveMarkKeepsValid(s: Store, player: PlayerId)
    requires Valid(s) && player in s.players
    ensures Valid(s.(players := s.players[player := s.players[player].(hasLeft := true)]))
  {
    var ps := s.players[player := s.players[player].(hasLeft := true)];
    forall a, b | a in ps && b in ps && ActiveHost(ps[a]) && ActiveHost(ps[b]) && ps[a].roomCode == ps[b].roomCode
      ensures a == b
    {
      assert a != player && b != player;
      assert ActiveHost(s.players[a]) && ActiveHost(s.players[b]);
    }
  }

  /** Deleting the rounds of a room with their votes and messages keeps the tables consistent. */
  lemma CleanupKeepsValid(s: Store, code: Code)
    requires Valid(s)
    ensures Valid(CleanupCurrentRoundData(s, code))
  {
  }

  /** Resetting players for the lobby changes no key column. */
  lemma ResetKeepsValid(s: Store, ids: seq<PlayerId>)
    requires Valid(s) && forall id :: id in ids ==> id in s.players
    ensures Valid(s.(players := ResetAllPlayersForLobby(s.players, ids)))
  {
    var r := ResetAllPlayersForLobby(s.players, ids);
    assert SameRows(s.players, r) by {
      forall id | id in s.players ensures KeyColumns(r[id]) == KeyColumns(s.players[id]) {
      }
    }
    SameRowsKeepValid(s, r);
  }

  /** The store an interrupted game leaves before its two messages: the room back in LOBBY, everyone reset. */
  function Interrupted(s1: Store, code: Code): Store
    requires code in s1.rooms
  {
    var active := Active(s1, code);
    var s3 := CleanupCurrentRoundData(s1, code);
    var s4 := s3.(rooms := s3.rooms[code := s3.rooms[code].(state := LOBBY, currentRound := None)]);
    s4.(players := ResetAllPlayersForLobby(s4.players, active))
  }

  lemma InterruptedKeepsValid(s1: Store, code: Code)
    requires Valid(s1) && code in s1.rooms
    ensures Valid(Interrupted(s1, code))
  {
    var s3 := CleanupCurrentRoundData(s1, code);
    CleanupKeepsValid(s1, code);
    var s4 := s3.(rooms := s3.rooms[code := s3.rooms[code].(state := LOBBY, currentRound := None)]);
    RoomUpdateKeepsValid(s3, code, s3.rooms[code].(state := LOBBY, currentRound := None));
    ResetKeepsValid(s4, Active(s1, code));
  }

  /** `handlePlayerDisconnection` keeps the tables consistent, for the host and for anyone else. */
  lemma DisconnectKeepsValid(s: Store, code: Code, player: PlayerId)
    requires Valid(s)
    ensures Valid(HandlePlayerDisconnection(s, code, player))
  {
    if code !in s.rooms || player !in s.players {
    } else if s.players[player].isHost {
      EmitKeepsValid(s, RoomDeleted(code, player));
      RemoveRoomKeepsValid(Emit(s, RoomDeleted(code, player)), code);
    } else {
      var s1 := s.(players := s.players[player := s.players[player].(hasLeft := true)]);
      LeaveMarkKeepsValid(s, player);
      if s.rooms[code].state == ROUND {
        InterruptedKeepsValid(s1, code);
        var s2 := Emit(Interrupted(s1, code), GameInterrupted(code, player));
        EmitKeepsValid(Interrupted(s1, code), GameInterrupted(code, player));
        EmitKeepsValid(s2, RoomStateUpdate(code));
        DisconnectIs(s, code, player, s1, s2);
      } else {
        EmitKeepsValid(s1, PlayerLeft(code, player));
        EmitKeepsValid(Emit(s1, PlayerLeft(code, player)), RoomStateUpdate(code));
        DisconnectIs(s, code, player, s1, Emit(s1, PlayerLeft(code, player)));
      }
    }
  }

  /** A non-host leaving ends in the closing broadcast of what the leave or the interruption built. */
  lemma DisconnectIs(s: Store, code: Code, player: PlayerId, s1: Store, s2: Store)
    requires code in s.rooms && player in s.players && !s.players[player].isHost
    requires s1 == s.(players := s.players[player := s.players[player].(hasLeft := true)])
    requires s.rooms[code].state == ROUND ==> s2 == Emit(Interrupted(s1, code), GameInterrupted(code, player))
    requires s.rooms[code].state != ROUND ==> s2 == Emit(s1, PlayerLeft(code, player))
    ensures HandlePlayerDisconnection(s, code, player) == Emit(s2, RoomStateUpdate(code))
  {
  }

  /** The store after the players are copied and the old room removed, for a new room `code`. */
  function AfterMove(s: Store, oldCode: Code, code: Code, active: seq<PlayerId>, host: PlayerId): Store
    requires oldCode in s.rooms && forall id :: id in active ==> id in s.players
  {
    var room := s.rooms[oldCode];
    var s1 := s.(rooms := s.rooms[code := NewRoom(code, room.maxPlayers, room.roundLimit, room.theme)]);
    RemoveRoom(SaveAll(s1, MovedPlayers(s, active, code, host)), oldCode)
  }

  /** Every row of the moved store is an old row kept as it was or the copy of a present player. */
  lemma MovedRows(s: Store, oldCode: Code, code: Code, active: seq<PlayerId>, host: PlayerId)
    requires Valid(s) && oldCode in s.rooms && code !in s.rooms
    requires forall id :: id in active ==> id in s.players
    requires host in active
    ensures var t := AfterMove(s, oldCode, code, active, host);
      t.nextPlayerId == s.nextPlayerId + |active| &&
      (forall id :: id in t.players && id < s.nextPlayerId ==> id in s.players && t.players[id] == s.players[id]) &&
      (forall id :: id in t.players ==> id < t.nextPlayerId)
  {
    var room := s.rooms[oldCode];
    var s1 := s.(rooms := s.rooms[code := NewRoom(code, room.maxPlayers, room.roundLimit, room.theme)]);
    var ps := MovedPlayers(s, active, code, host);
    SaveAllRows(s1, ps);
  }

  /** The move keeps the other rooms' rounds and votes as they were. */
  lemma MovedRounds(s: Store, oldCode: Code, code: Code, active: seq<PlayerId>, host: PlayerId)
    requires Valid(s) && oldCode in s.rooms
    requires forall id :: id in active ==> id in s.players
    ensures var t := AfterMove(s, oldCode, code, active, host);
      (forall k :: k in t.rounds ==> k in s.rounds && k.code != oldCode && t.rounds[k] == s.rounds[k]) &&
      UniqueVotes(t.votes)
    ensures var t := AfterMove(s, oldCode, code, active, host);
      (forall v :: v in t.votes ==> v.round in t.rounds) && (forall m :: m in t.messages ==> m.round in t.rounds)
  {
  }

  /** Moving the present players into a fresh room keeps the tables consistent. */
  lemma MoveKeepsValid(s: Store, oldCode: Code, code: Code, active: seq<PlayerId>, host: PlayerId)
    requires Valid(s) && oldCode in s.rooms && code !in s.rooms && |code| <= CodeLength
    requires forall id :: id in active ==> id in s.players
    requires host in active && Distinct(active)
    ensures Valid(AfterMove(s, oldCode, code, active, host))
  {
    var room := s.rooms[oldCode];
    MovedStore(s, oldCode, code, active, host);
    MovedRows(s, oldCode, code, active, host);
    MovedRounds(s, oldCode, code, active, host);
    MovedTablesValid(s, AfterMove(s, oldCode, code, active, host), oldCode, code, active, host,
                     NewRoom(code, room.maxPlayers, room.roundLimit, room.theme));
  }

  /** The move's tables are consistent, given what the move keeps and what it adds. */
  lemma MovedTablesValid(s: Store, t: Store, oldCode: Code, code: Code, active: seq<PlayerId>, host: PlayerId, room: GameRoom)
    requires Valid(s) && code !in s.rooms && |code| <= CodeLength && room.code == code
    requires MovedInto(s, t, active, code, host) && host in active && Distinct(active)
    requires t.rooms == s.rooms[code := room] - {oldCode}
    requires forall id :: id in t.players ==> t.players[id].roomCode != oldCode
    requires t.nextPlayerId == s.nextPlayerId + |active|
    requires forall id :: id in t.players && id < s.nextPlayerId ==> id in s.players && t.players[id] == s.players[id]
    requires forall id :: id in t.players ==> id < t.nextPlayerId
    requires forall k :: k in t.rounds ==> k in s.rounds && k.code != oldCode && t.rounds[k] == s.rounds[k]
    requires UniqueVotes(t.votes)
    requires (forall v :: v in t.votes ==> v.round in t.rounds) && (forall m :: m in t.messages ==> m.round in t.rounds)
    ensures Valid(t)
  {
    MovedPlayersResolve(s, t, oldCode, code, active, host, room);
    MovedHosts(s, t, active, code, host);
  }

  /** Each row of the moved table is keyed by its id, names a kept room and has a short nickname. */
  lemma MovedPlayersResolve(s: Store, t: Store, oldCode: Code, code: Code, active: seq<PlayerId>, host: PlayerId, room: GameRoom)
    requires Valid(s) && code !in s.rooms
    requires MovedInto(s, t, active, code, host)
    requires t.rooms == s.rooms[code := room] - {oldCode}
    requires forall id :: id in t.players ==> t.players[id].roomCode != oldCode
    requires t.nextPlayerId == s.nextPlayerId + |active|
    requires forall id :: id in t.players && id < s.nextPlayerId ==> id in s.players && t.players[id] == s.players[id]
    requires forall id :: id in t.players ==> id < t.nextPlayerId
    ensures forall id :: id in t.players ==>
      t.players[id].id == id && t.players[id].roomCode in t.rooms &&
      |t.players[id].nickname| <= NicknameLength &&
      (id >= s.nextPlayerId ==> t.players[id].roomCode == code)
  {
    forall id | id in t.players
      ensures t.players[id].id == id && t.players[id].roomCode in t.rooms &&
        |t.players[id].nickname| <= NicknameLength &&
        (id >= s.nextPlayerId ==> t.players[id].roomCode == code)
    {
      if id < s.nextPlayerId {
        assert t.players[id] == s.players[id];
      } else {
        var i := id - s.nextPlayerId;
        assert CopyOf(t, s.nextPlayerId + i, s.players[active[i]], code, active[i] == host);
      }
    }
  }

  /** At most one present host per room after the move: the new room's by construction, the others' as before. */
  lemma MovedHosts(s: Store, t: Store, active: seq<PlayerId>, code: Code, host: PlayerId)
    requires Valid(s) && MovedInto(s, t, active, code, host) && host in active && Distinct(active)
    requires forall id :: id in t.players && id < s.nextPlayerId ==> id in s.players && t.players[id] == s.players[id]
    requires forall id :: id in t.players && id >= s.nextPlayerId ==> t.players[id].roomCode == code
    ensures OneActiveHost(t.players)
  {
    OneHostMoved(s, t, active, code, host);
    forall a, b | a in t.players && b in t.players && ActiveHost(t.players[a]) && ActiveHost(t.players[b]) &&
      t.players[a].roomCode == t.players[b].roomCode
      ensures a == b
    {
      if t.players[a].roomCode != code {
        assert ActiveHost(s.players[a]) && ActiveHost(s.players[b]);
      }
    }
  }

  /** `createNewRoomAfterGame` keeps the tables consistent: no row points at the removed room. */
  lemma NewRoomKeepsValid(s: Store, oldCode: Code, codeDraws: seq<nat>)
    requires Valid(s)
    ensures Valid(CreateNewRoomAfterGame(s, oldCode, codeDraws))
  {
    var st := CreateNewRoomAfterGameBody(s, oldCode, codeDraws);
    if st.err.Some? {
      NewRoomFailureChangesNothing(s, oldCode, codeDraws);
    } else if Active(s, oldCode) == [] {
      NobodyToMove(s, oldCode, codeDraws);
    } else {
      var active := Active(s, oldCode);
      var code := RelocationShape(s, oldCode, codeDraws);
      MoveKeepsValid(s, oldCode, code, active, OldHost(s, active));
    }
  }

  /** PlayerService's `leaveRoom` keeps the tables consistent, with or without the hand-off failing. */
  lemma LeaveRoomKeepsValid(s: Store, code: Code, player: PlayerId, delegateFails: bool)
    requires Valid(s)
    ensures Valid(LeaveRoom(s, code, player, delegateFails))
  {
    var st := LeaveRoomBody(s, code, player, delegateFails);
    if st.err.None? {
      if !delegateFails {
        DisconnectKeepsValid(s, code, player);
      } else {
        var s1 := s.(players := s.players[player := s.players[player].(hasLeft := true)]);
        LeaveMarkKeepsValid(s, player);
        EmitKeepsValid(s1, PlayerLeft(code, player));
        EmitKeepsValid(Emit(s1, PlayerLeft(code, player)), RoomStateUpdate(code));
      }
    }
    CommitKeepsValid(s, st);
  }

  /**
   * A round GameRoomService's `startNewRound` creates starts with no votes
   * of either kind and no messages; when the room ends instead, no round is created.
   */
  lemma RoundStartsEmpty(s: Store, code: Code, idx: int, d: RoundDraw)
    requires Valid(s) && code in s.rooms
    ensures var t := StartNewRound(s, code, idx, d);
      RoundKey(code, idx) !in s.rounds ==>
        (RoundKey(code, idx) in t.rounds <==> |Alive(s, code)| >= 3) &&
        Ballot(t.votes, RoundKey(code, idx), false) == [] && Ballot(t.votes, RoundKey(code, idx), true) == [] &&
        forall m :: m in t.messages ==> m.round != RoundKey(code, idx)
  {
    var key := RoundKey(code, idx);
    if key !in s.rounds {
      AliveAreActive(s, code);
      NoBallotFor(s.votes, key, false);
      NoBallotFor(s.votes, key, true);
    }
  }
}
