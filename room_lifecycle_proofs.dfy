/**
 * What the room lifecycle guarantees: the guards of each operation, the
 * state it leaves behind, and the consistency of the tables it keeps.
 */
module RoomLifecycleProofs {
  import opened Wrappers
  import opened Entities
  import opened Store
  import opened PlayerRepository
  import opened VoteRepository
  import opened Roles
  import opened RoomCodes
  import opened Requests
  import opened RoomLifecycle

  /**
   * `createRoom` succeeds iff a fresh code can be drawn, a theme is found
   * and both numbers are present; it then adds exactly one LOBBY room, at
   * round 0, under an 8-character code no other room has.
   */
  lemma CreateRoomRule(s: Store, req: RoomCreateRequest, codeDraws: seq<nat>, byGroup: Option<Theme>, anyTheme: Option<Theme>)
    ensures CreateRoomBody(s, req, codeDraws, byGroup, anyTheme).err.None? <==>
      GeneratedCode(s.rooms.Keys, codeDraws).Some? && ChooseTheme(req.themeGroup, byGroup, anyTheme).Some? &&
      req.maxPlayers.Some? && req.roundLimit.Some?
    ensures CreateRoomBody(s, req, codeDraws, byGroup, anyTheme).err.None? ==>
      var c := GeneratedCode(s.rooms.Keys, codeDraws).value;
      var t := CreateRoom(s, req, codeDraws, byGroup, anyTheme);
      c !in s.rooms && |c| == CodeLength && InAlphabet(c) &&
      t.rooms.Keys == s.rooms.Keys + {c} && (forall k :: k in s.rooms ==> t.rooms[k] == s.rooms[k]) &&
      t.rooms[c].state == LOBBY && t.rooms[c].currentRound == Some(0) &&
      t.rooms[c].maxPlayers == req.maxPlayers.value && t.rooms[c].roundLimit == req.roundLimit.value &&
      t.rooms[c].theme == ChooseTheme(req.themeGroup, byGroup, anyTheme).value &&
      t.players == s.players && t.rounds == s.rounds && t.votes == s.votes && t.events == s.events
    ensures CreateRoomBody(s, req, codeDraws, byGroup, anyTheme).err.Some? ==>
      CreateRoom(s, req, codeDraws, byGroup, anyTheme) == s
  {
  }

  /** A consistent store stays consistent when a room is created. */
  lemma CreateRoomKeepsValid(s: Store, req: RoomCreateRequest, codeDraws: seq<nat>, byGroup: Option<Theme>, anyTheme: Option<Theme>)
    requires Valid(s)
    ensures Valid(CreateRoom(s, req, codeDraws, byGroup, anyTheme))
  {
    var st := CreateRoomBody(s, req, codeDraws, byGroup, anyTheme);
    if st.err.None? {
      var code := GeneratedCode(s.rooms.Keys, codeDraws).value;
      var theme := ChooseTheme(req.themeGroup, byGroup, anyTheme).value;
      var t := CreateRoom(s, req, codeDraws, byGroup, anyTheme);
      assert t == s.(rooms := s.rooms[code := NewRoom(code, req.maxPlayers.value, req.roundLimit.value, theme)]);
      assert |code| <= CodeLength;
    } else {
      assert CreateRoom(s, req, codeDraws, byGroup, anyTheme) == s;
    }
  }

  /**
   * `joinRoom` refuses a missing room, a room out of LOBBY, a full room and
   * a nickname a present player holds; otherwise it adds one CITIZEN under
   * the next id, who is host iff nobody was present, and announces it.
   */
  lemma JoinRule(s: Store, code: Code, req: JoinRoomRequest)
    ensures JoinRoomBody(s, code, req).err.None? <==>
      code in s.rooms && s.rooms[code].state == LOBBY && |Active(s, code)| < s.rooms[code].maxPlayers &&
      req.nickname.Some? && !NicknameTaken(s, code, req.nickname.value) && |req.nickname.value| <= NicknameLength
    ensures JoinRoomBody(s, code, req).err.None? ==>
      var id := s.nextPlayerId;
      var t := JoinRoom(s, code, req);
      t.players.Keys == s.players.Keys + {id} && t.nextPlayerId == id + 1 &&
      (forall k :: k in s.players && k != id ==> t.players[k] == s.players[k]) &&
      t.players[id].roomCode == code && t.players[id].nickname == req.nickname.value &&
      (t.players[id].isHost <==> Active(s, code) == []) &&
      t.players[id].role == CITIZEN && t.players[id].isAlive && !t.players[id].hasLeft &&
      t.rooms == s.rooms && t.rounds == s.rounds && t.votes == s.votes &&
      t.events == s.events + [PlayerJoined(code, id), RoomStateUpdate(code)]
    ensures JoinRoomBody(s, code, req).err.Some? ==> JoinRoom(s, code, req) == s
  {
  }

  /** Joining keeps the tables consistent, and in particular at most one present host per room. */
  lemma JoinKeepsValid(s: Store, code: Code, req: JoinRoomRequest)
    requires Valid(s)
    ensures Valid(JoinRoom(s, code, req))
  {
    if JoinRoomBody(s, code, req).err.None? {
      JoinRule(s, code, req);
      var t := JoinRoom(s, code, req);
      var id := s.nextPlayerId;
      assert OneActiveHost(t.players);
    }
  }

  /** `startGame` needs a known room, a host caller and three present players; a refusal changes nothing. */
  lemma StartGameGuards(s: Store, code: Code, host: PlayerId, d: RoundDraw)
    ensures StartGameBody(s, code, host, d).err.None? <==>
      code in s.rooms && host in s.players && s.players[host].isHost && |Active(s, code)| >= 3
    ensures StartGameBody(s, code, host, d).err.Some? ==> StartGame(s, code, host, d) == s
  {
  }

  /** The room of a started game: round 1, and GAME_STARTED as the one message. */
  lemma StartGameOpens(s: Store, code: Code, host: PlayerId, d: RoundDraw)
    requires StartGameBody(s, code, host, d).err.None?
    ensures var t := StartGame(s, code, host, d);
      t.rooms.Keys == s.rooms.Keys && t.rooms[code].currentRound == Some(1) &&
      (forall c :: c in s.rooms && c != code ==> t.rooms[c] == s.rooms[c]) &&
      t.events == s.events + [GameStarted(code)] && t.votes == s.votes && t.messages == s.messages
  {
    StartGameIs(s, code, host, d);
    StartNewRoundFrame(Opened(s, code), code, 1, d);
  }

  /** With round 1 already there, only the room's state and round number change. */
  lemma StartGameExistingRound(s: Store, code: Code, host: PlayerId, d: RoundDraw)
    requires StartGameBody(s, code, host, d).err.None? && RoundKey(code, 1) in s.rounds
    ensures var t := StartGame(s, code, host, d);
      t.rounds == s.rounds && t.players == s.players && t.rooms[code].state == ROUND
  {
    StartGameIs(s, code, host, d);
  }

  /** With fewer than three alive players the game ends at once, nobody being dealt. */
  lemma StartGameTooFewAlive(s: Store, code: Code, host: PlayerId, d: RoundDraw)
    requires StartGameBody(s, code, host, d).err.None? && RoundKey(code, 1) !in s.rounds
    requires |Alive(s, code)| < 3
    ensures var t := StartGame(s, code, host, d);
      t.rounds == s.rounds && t.players == s.players && t.rooms[code].state == RoomState.END
  {
    StartGameIs(s, code, host, d);
    var s1 := Opened(s, code);
    SameQueriesFor(s, s1, code);
    AliveAreActive(s1, code);
  }

  /**
   * Otherwise the alive players are dealt, exactly one of them the liar,
   * and a READY round 1 is created; the room is in ROUND.
   */
  lemma StartGameDeals(s: Store, code: Code, host: PlayerId, d: RoundDraw) returns (liar: PlayerId)
    requires StartGameBody(s, code, host, d).err.None? && RoundKey(code, 1) !in s.rounds
    requires |Alive(s, code)| >= 3
    ensures var t := StartGame(s, code, host, d);
      t.rooms[code].state == ROUND && t.rounds == s.rounds[RoundKey(code, 1) := NewRound(code, 1)] &&
      Dealt(s.players, t.players, Alive(s, code), s.rooms[code].theme, liar)
  {
    StartGameIs(s, code, host, d);
    var s1 := Opened(s, code);
    SameQueriesFor(s, s1, code);
    StartNewRoundDeals(s1, code, 1, d);
    liar := AssignDeals(s.players, Alive(s, code), s.rooms[code].theme, d);
  }

  /** The store `startGame` hands to `startNewRound`: the room in ROUND at round 1. */
  function Opened(s: Store, code: Code): Store
    requires code in s.rooms
  {
    s.(rooms := s.rooms[code := s.rooms[code].(state := ROUND, currentRound := Some(1))])
  }

  lemma StartGameIs(s: Store, code: Code, host: PlayerId, d: RoundDraw)
    requires StartGameBody(s, code, host, d).err.None?
    ensures code in s.rooms
    ensures StartGame(s, code, host, d) == Emit(StartNewRound(Opened(s, code), code, 1, d), GameStarted(code))
  {
    assert StartGameBody(s, code, host, d) == Ok(Emit(StartNewRound(Opened(s, code), code, 1, d), GameStarted(code)));
  }

  /** `startNewRound` touches only the room's state, the player rows and the round rows. */
  lemma StartNewRoundFrame(s: Store, code: Code, idx: int, d: RoundDraw)
    requires code in s.rooms
    ensures var t := StartNewRound(s, code, idx, d);
      t.rooms.Keys == s.rooms.Keys && t.rooms[code].currentRound == s.rooms[code].currentRound &&
      (forall c :: c in s.rooms && c != code ==> t.rooms[c] == s.rooms[c]) &&
      t.events == s.events && t.votes == s.votes && t.messages == s.messages
  {
  }

  /** With three alive players and no such round yet, `startNewRound` deals them and creates the round. */
  lemma StartNewRoundDeals(s: Store, code: Code, idx: int, d: RoundDraw)
    requires code in s.rooms && RoundKey(code, idx) !in s.rounds && |Alive(s, code)| >= 3
    ensures StartNewRound(s, code, idx, d) ==
      s.(players := Assign(s.players, Alive(s, code), s.rooms[code].theme, d),
         rounds := s.rounds[RoundKey(code, idx) := NewRound(code, idx)])
  {
    AliveAreActive(s, code);
  }

  /** The player queries only read the player table. */
  lemma SameQueriesFor(s: Store, t: Store, code: Code)
    requires t.players == s.players && t.nextPlayerId == s.nextPlayerId
    ensures Active(t, code) == Active(s, code) && Alive(t, code) == Alive(s, code)
  {
  }

  /** A round that already exists is never created again: the call changes nothing. */
  lemma StartNewRoundOnce(s: Store, code: Code, idx: int, d: RoundDraw)
    requires code in s.rooms
    ensures RoundKey(code, idx) in s.rounds ==> StartNewRound(s, code, idx, d) == s
    ensures var t := StartNewRound(s, code, idx, d);
      t.rounds.Keys <= s.rounds.Keys + {RoundKey(code, idx)} && forall k :: k in s.rounds ==> t.rounds[k] == s.rounds[k]
  {
  }

  /** A leave for an unknown room or an unknown player does nothing. */
  lemma UnknownLeaveIgnored(s: Store, code: Code, player: PlayerId)
    requires code !in s.rooms || player !in s.players
    ensures HandlePlayerDisconnection(s, code, player) == s
  {
  }

  /**
   * A host leaving deletes the room with all its rounds, votes, messages
   * and players, after sending ROOM_DELETED as the only message; other
   * rooms keep everything.
   */
  lemma HostLeaveDeletesRoom(s: Store, code: Code, host: PlayerId)
    requires code in s.rooms && host in s.players && s.players[host].isHost
    ensures var t := HandlePlayerDisconnection(s, code, host);
      t.rooms == s.rooms - {code} &&
      (forall id :: id in t.players <==> id in s.players && s.players[id].roomCode != code) &&
      (forall k :: k in t.rounds <==> k in s.rounds && k.code != code) &&
      (forall v :: v in t.votes <==> v in s.votes && v.round.code != code) &&
      (forall m :: m in t.messages <==> m in s.messages && m.round.code != code && m.roomCode != code) &&
      (forall id :: id in t.players ==> t.players[id] == s.players[id]) &&
      t.events == s.events + [RoomDeleted(code, host)]
  {
  }

  /**
   * Anyone else leaving is marked as left. During a game, whoever remains,
   * the rounds of the room and their votes and messages are deleted, the
   * room goes back to LOBBY without a round number, other rooms are untouched, and every remaining
   * player is reset to an alive CITIZEN without a word, and GAME_INTERRUPTED
   * is sent. In the lobby or after a game nothing else changes and
   * PLAYER_LEFT is sent. Either way ROOM_STATE_UPDATE follows.
   */
  lemma OtherLeaveInterrupts(s: Store, code: Code, player: PlayerId)
    requires code in s.rooms && player in s.players && !s.players[player].isHost
    ensures var t := HandlePlayerDisconnection(s, code, player);
      t.players.Keys == s.players.Keys && t.players[player].hasLeft && t.rooms.Keys == s.rooms.Keys
    ensures var t := HandlePlayerDisconnection(s, code, player);
      var s1 := s.(players := s.players[player := s.players[player].(hasLeft := true)]);
      s.rooms[code].state == ROUND ==>
        InterruptedFrom(s, s1, t, code, player)
    ensures s.rooms[code].state != ROUND ==>
      HandlePlayerDisconnection(s, code, player) ==
        s.(players := s.players[player := s.players[player].(hasLeft := true)],
           events := s.events + [PlayerLeft(code, player), RoomStateUpdate(code)])
  {
    if s.rooms[code].state == ROUND {
      InterruptClears(s, code, player);
    }
  }

  /**
   * What an interrupted game leaves, from the store `s` before the leave
   * and `s1` once the leaver is marked.
   */
  ghost predicate InterruptedFrom(s: Store, s1: Store, t: Store, code: Code, player: PlayerId) {
    t.rooms.Keys == s.rooms.Keys && t.players.Keys == s1.players.Keys && code in t.rooms &&
    t.rooms[code].state == LOBBY && t.rooms[code].currentRound == None &&
    (forall k :: k in t.rounds <==> k in s.rounds && k.code != code) &&
    (forall v :: v in t.votes <==> v in s.votes && v.round.code != code) &&
    (forall m :: m in t.messages <==> m in s.messages && m.round.code != code) &&
    (forall c :: c in s.rooms && c != code ==> t.rooms[c] == s.rooms[c]) &&
    (forall id :: id in Active(s1, code) ==> t.players[id] == ForLobby(s1.players[id])) &&
    (forall id :: id in s1.players && id !in Active(s1, code) ==> t.players[id] == s1.players[id]) &&
    t.events == s.events + [GameInterrupted(code, player), RoomStateUpdate(code)]
  }

  lemma InterruptClears(s: Store, code: Code, player: PlayerId)
    requires code in s.rooms && player in s.players && !s.players[player].isHost
    requires s.rooms[code].state == ROUND
    ensures var t := HandlePlayerDisconnection(s, code, player);
      var s1 := s.(players := s.players[player := s.players[player].(hasLeft := true)]);
      InterruptedFrom(s, s1, t, code, player)
  {
  }

  /** The players of the new room, by position in the list of present players. */
  ghost predicate MovedInto(s: Store, t: Store, active: seq<PlayerId>, code: Code, host: PlayerId) {
    (forall i :: 0 <= i < |active| ==>
       active[i] in s.players && CopyOf(t, s.nextPlayerId + i, s.players[active[i]], code, active[i] == host)) &&
    (forall id :: id in t.players && t.players[id].roomCode == code ==>
       s.nextPlayerId <= id < s.nextPlayerId + |active|)
  }

  /** Row `id` of `t` copies `from` into the room: same nickname, an alive CITIZEN who has not left. */
  ghost predicate CopyOf(t: Store, id: PlayerId, from: Player, code: Code, isHost: bool) {
    id in t.players && t.players[id].id == id && t.players[id].roomCode == code &&
    t.players[id].nickname == from.nickname && t.players[id].isHost == isHost &&
    t.players[id].role == CITIZEN && t.players[id].isAlive && !t.players[id].hasLeft
  }

  /** The part of `Valid` moving players relies on: ids below the next one, rooms that exist. */
  ghost predicate PlayersResolve(s: Store) {
    forall id :: id in s.players ==> id < s.nextPlayerId && s.players[id].roomCode in s.rooms
  }

  /** After a game with nobody present, `createNewRoomAfterGame` changes nothing and returns null. */
  lemma {:induction false} NobodyToMove(s: Store, oldCode: Code, codeDraws: seq<nat>)
    requires oldCode in s.rooms && Active(s, oldCode) == []
    ensures CreateNewRoomAfterGame(s, oldCode, codeDraws) == s && Relocated(s, oldCode, codeDraws).None?
  {
  }

  /** A failed `createNewRoomAfterGame` changes nothing. */
  lemma {:induction false} NewRoomFailureChangesNothing(s: Store, oldCode: Code, codeDraws: seq<nat>)
    requires CreateNewRoomAfterGameBody(s, oldCode, codeDraws).err.Some?
    ensures CreateNewRoomAfterGame(s, oldCode, codeDraws) == s
  {
  }

  /**
   * Otherwise a LOBBY room under a fresh code gets the old room's
   * settings and a copy of every present player, alive and CITIZEN, with
   * only the kept host as host; the old room and all its players are gone.
   */
  lemma {:induction false} NewRoomAfterGame(s: Store, oldCode: Code, codeDraws: seq<nat>)
    requires PlayersResolve(s) && oldCode in s.rooms && Active(s, oldCode) != []
    requires CreateNewRoomAfterGameBody(s, oldCode, codeDraws).err.None?
    ensures Relocated(s, oldCode, codeDraws).Some?
    ensures Relocated(s, oldCode, codeDraws).value.code !in s.rooms
    ensures oldCode !in CreateNewRoomAfterGame(s, oldCode, codeDraws).rooms
    ensures var code := Relocated(s, oldCode, codeDraws).value.code;
      var t := CreateNewRoomAfterGame(s, oldCode, codeDraws);
      code in t.rooms && t.rooms[code] == NewRoom(code, s.rooms[oldCode].maxPlayers, s.rooms[oldCode].roundLimit, s.rooms[oldCode].theme)
    ensures MovedInto(s, CreateNewRoomAfterGame(s, oldCode, codeDraws), Active(s, oldCode),
                      Relocated(s, oldCode, codeDraws).value.code, OldHost(s, Active(s, oldCode)))
    ensures forall id :: id in CreateNewRoomAfterGame(s, oldCode, codeDraws).players ==>
      CreateNewRoomAfterGame(s, oldCode, codeDraws).players[id].roomCode != oldCode
  {
    var active := Active(s, oldCode);
    var code := GeneratedCode(s.rooms.Keys, codeDraws).value;
    var host := OldHost(s, active);
    var room := s.rooms[oldCode];
    var s1 := s.(rooms := s.rooms[code := NewRoom(code, room.maxPlayers, room.roundLimit, room.theme)]);
    var t := RemoveRoom(SaveAll(s1, MovedPlayers(s, active, code, host)), oldCode);
    assert CreateNewRoomAfterGame(s, oldCode, codeDraws) == t;
    assert Relocated(s, oldCode, codeDraws) == Some(Relocation(code, IdMapping(active, s.nextPlayerId)));
    MovedStore(s, oldCode, code, active, host);
    assert code != oldCode;
    assert t.rooms == s.rooms[code := NewRoom(code, room.maxPlayers, room.roundLimit, room.theme)] - {oldCode};
    AddedRoomStays(s.rooms, code, NewRoom(code, room.maxPlayers, room.roundLimit, room.theme), oldCode);
  }

  lemma AddedRoomStays(rooms: map<Code, GameRoom>, code: Code, room: GameRoom, other: Code)
    requires code != other
    ensures code in rooms[code := room] - {other} && (rooms[code := room] - {other})[code] == room
  {
  }

  lemma {:induction false} MovedStore(s: Store, oldCode: Code, code: Code, active: seq<PlayerId>, host: PlayerId)
    requires oldCode in s.rooms && code !in s.rooms
    requires PlayersResolve(s)
    requires forall id :: id in active ==> id in s.players
    requires host in active
    ensures var room := s.rooms[oldCode];
      var s1 := s.(rooms := s.rooms[code := NewRoom(code, room.maxPlayers, room.roundLimit, room.theme)]);
      var t := RemoveRoom(SaveAll(s1, MovedPlayers(s, active, code, host)), oldCode);
      MovedInto(s, t, active, code, host) &&
      t.rooms == s1.rooms - {oldCode} &&
      (forall id :: id in t.players ==> t.players[id].roomCode != oldCode)
  {
    var room := s.rooms[oldCode];
    var s1 := s.(rooms := s.rooms[code := NewRoom(code, room.maxPlayers, room.roundLimit, room.theme)]);
    SavedMoved(s, s1, oldCode, code, active, host, MovedPlayers(s, active, code, host));
  }

  /** The copies are saved under the next ids; the earlier players stay, and none of them is in the new room. */
  lemma {:induction false} SavedMoved(s: Store, s1: Store, oldCode: Code, code: Code, active: seq<PlayerId>, host: PlayerId, ps: seq<Player>)
    requires code != oldCode && s1.players == s.players && s1.nextPlayerId == s.nextPlayerId
    requires forall id :: id in s.players ==> id < s.nextPlayerId && s.players[id].roomCode != code
    requires |ps| == |active|
    requires forall i :: 0 <= i < |ps| ==> active[i] in s.players && ps[i] == Moved(s, active[i], code, host)
    ensures MovedInto(s, RemoveRoom(SaveAll(s1, ps), oldCode), active, code, host)
  {
    AllCopied(s, s1, oldCode, code, active, host, ps);
    OnlyCopies(s1, oldCode, code, ps);
  }

  lemma {:induction false} AllCopied(s: Store, s1: Store, oldCode: Code, code: Code, active: seq<PlayerId>, host: PlayerId, ps: seq<Player>)
    requires s1.nextPlayerId == s.nextPlayerId
    requires |ps| == |active|
    requires forall i :: 0 <= i < |ps| ==> active[i] in s.players && ps[i] == Moved(s, active[i], code, host)
    requires forall i :: 0 <= i < |ps| ==> ps[i].roomCode != oldCode
    ensures forall i :: 0 <= i < |active| ==>
      active[i] in s.players && CopyOf(RemoveRoom(SaveAll(s1, ps), oldCode), s.nextPlayerId + i, s.players[active[i]], code, active[i] == host)
  {
    RowsKept(s1, oldCode, ps);
    CopiesFromRows(s, RemoveRoom(SaveAll(s1, ps), oldCode), code, active, host, ps);
  }

  lemma {:induction false} RowsKept(s1: Store, oldCode: Code, ps: seq<Player>)
    requires forall i :: 0 <= i < |ps| ==> ps[i].roomCode != oldCode
    ensures forall i :: 0 <= i < |ps| ==>
      HoldsRow(RemoveRoom(SaveAll(s1, ps), oldCode).players, s1.nextPlayerId + i, WithId(ps[i], s1.nextPlayerId + i))
  {
    forall i | 0 <= i < |ps|
      ensures HoldsRow(RemoveRoom(SaveAll(s1, ps), oldCode).players, s1.nextPlayerId + i, WithId(ps[i], s1.nextPlayerId + i))
    {
      CopyAt(s1, oldCode, ps, i);
    }
  }

  lemma {:induction false} CopiesFromRows(s: Store, t: Store, code: Code, active: seq<PlayerId>, host: PlayerId, ps: seq<Player>)
    requires |ps| == |active|
    requires forall i :: 0 <= i < |ps| ==> active[i] in s.players && ps[i] == Moved(s, active[i], code, host)
    requires forall i :: 0 <= i < |ps| ==> HoldsRow(t.players, s.nextPlayerId + i, WithId(ps[i], s.nextPlayerId + i))
    ensures forall i :: 0 <= i < |active| ==>
      active[i] in s.players && CopyOf(t, s.nextPlayerId + i, s.players[active[i]], code, active[i] == host)
  {
  }

  lemma {:induction false} CopyAt(s1: Store, oldCode: Code, ps: seq<Player>, i: nat)
    requires i < |ps| && ps[i].roomCode != oldCode
    ensures HoldsRow(RemoveRoom(SaveAll(s1, ps), oldCode).players, s1.nextPlayerId + i, WithId(ps[i], s1.nextPlayerId + i))
  {
    SavedAt(s1, ps, i);
    RemovedKeeps(SaveAll(s1, ps), oldCode, s1.nextPlayerId + i);
  }

  lemma {:induction false} OnlyCopies(s1: Store, oldCode: Code, code: Code, ps: seq<Player>)
    requires forall id :: id in s1.players ==> id < s1.nextPlayerId && s1.players[id].roomCode != code
    ensures var t := RemoveRoom(SaveAll(s1, ps), oldCode);
      forall id :: id in t.players && t.players[id].roomCode == code ==> s1.nextPlayerId <= id < s1.nextPlayerId + |ps|
  {
    SaveAllRows(s1, ps);
  }

  lemma {:induction false} SavedAt(s: Store, ps: seq<Player>, i: nat)
    requires i < |ps|
    ensures s.nextPlayerId + i in SaveAll(s, ps).players
    ensures SaveAll(s, ps).players[s.nextPlayerId + i] == WithId(ps[i], s.nextPlayerId + i)
  {
    SaveAllRows(s, ps);
  }

  lemma {:induction false} RemovedKeeps(s: Store, code: Code, id: PlayerId)
    requires id in s.players && s.players[id].roomCode != code
    ensures id in RemoveRoom(s, code).players && RemoveRoom(s, code).players[id] == s.players[id]
  {
  }

  /** What a successful `createNewRoomAfterGame` returns and leaves behind, in terms of its steps. */
  lemma {:induction false} RelocationShape(s: Store, oldCode: Code, codeDraws: seq<nat>) returns (code: Code)
    requires oldCode in s.rooms && Active(s, oldCode) != []
    requires CreateNewRoomAfterGameBody(s, oldCode, codeDraws).err.None?
    ensures code !in s.rooms && GeneratedCode(s.rooms.Keys, codeDraws) == Some(code)
    ensures Relocated(s, oldCode, codeDraws) == Some(Relocation(code, IdMapping(Active(s, oldCode), s.nextPlayerId)))
    ensures var room := s.rooms[oldCode];
      var s1 := s.(rooms := s.rooms[code := NewRoom(code, room.maxPlayers, room.roundLimit, room.theme)]);
      CreateNewRoomAfterGame(s, oldCode, codeDraws) ==
        RemoveRoom(SaveAll(s1, MovedPlayers(s, Active(s, oldCode), code, OldHost(s, Active(s, oldCode)))), oldCode)
  {
    code := GeneratedCode(s.rooms.Keys, codeDraws).value;
  }

  /** The returned mapping takes every present player, and only them, to its copy in the new room. */
  lemma {:induction false} RelocationMapping(s: Store, oldCode: Code, codeDraws: seq<nat>)
    requires PlayersResolve(s) && oldCode in s.rooms && Active(s, oldCode) != []
    requires CreateNewRoomAfterGameBody(s, oldCode, codeDraws).err.None?
    ensures Relocated(s, oldCode, codeDraws).Some?
    ensures Relocated(s, oldCode, codeDraws).value.mapping.Keys == (set id | id in Active(s, oldCode))
    ensures var t := CreateNewRoomAfterGame(s, oldCode, codeDraws);
      var r := Relocated(s, oldCode, codeDraws).value;
      forall a :: a in Active(s, oldCode) ==>
        r.mapping[a] in t.players && t.players[r.mapping[a]].roomCode == r.code &&
        t.players[r.mapping[a]].nickname == s.players[a].nickname
  {
    var active := Active(s, oldCode);
    var code := RelocationShape(s, oldCode, codeDraws);
    var host := OldHost(s, active);
    var room := s.rooms[oldCode];
    var s1 := s.(rooms := s.rooms[code := NewRoom(code, room.maxPlayers, room.roundLimit, room.theme)]);
    MovedStore(s, oldCode, code, active, host);
    IdMappingKeys(active, s.nextPlayerId);
    MappingLands(s, RemoveRoom(SaveAll(s1, MovedPlayers(s, active, code, host)), oldCode), active, code, host, IdMapping(active, s.nextPlayerId));
  }

  /** The mapping has an entry for each listed id and for nothing else. */
  lemma {:induction false} IdMappingKeys(ids: seq<PlayerId>, first: nat)
    requires Distinct(ids)
    ensures IdMapping(ids, first).Keys == set id | id in ids
  {
    if ids != [] {
      var init := ids[..|ids| - 1];
      assert Distinct(init);
      IdMappingKeys(init, first);
      assert ids == init + [ids[|ids| - 1]];
    }
  }

  lemma {:induction false} MappingLands(s: Store, t: Store, active: seq<PlayerId>, code: Code, host: PlayerId, m: map<PlayerId, PlayerId>)
    requires MovedInto(s, t, active, code, host)
    requires forall i :: 0 <= i < |active| ==> active[i] in m && m[active[i]] == s.nextPlayerId + i
    ensures forall a :: a in active ==>
      m[a] in t.players && t.players[m[a]].roomCode == code && t.players[m[a]].nickname == s.players[a].nickname
  {
    forall a | a in active
      ensures m[a] in t.players && t.players[m[a]].roomCode == code && t.players[m[a]].nickname == s.players[a].nickname
    {
      var i :| 0 <= i < |active| && active[i] == a;
      assert CopyOf(t, s.nextPlayerId + i, s.players[active[i]], code, active[i] == host);
    }
  }

  /** The new room has exactly one host: the kept host's copy. */
  lemma {:induction false} NewRoomOneHost(s: Store, oldCode: Code, codeDraws: seq<nat>)
    requires PlayersResolve(s) && oldCode in s.rooms && Active(s, oldCode) != []
    requires CreateNewRoomAfterGameBody(s, oldCode, codeDraws).err.None?
    ensures var t := CreateNewRoomAfterGame(s, oldCode, codeDraws);
      var code := Relocated(s, oldCode, codeDraws).value.code;
      (exists id :: id in t.players && t.players[id].roomCode == code && t.players[id].isHost) &&
      forall a, b ::
        (a in t.players && b in t.players && t.players[a].roomCode == code &&
         t.players[b].roomCode == code && t.players[a].isHost && t.players[b].isHost) ==> a == b
  {
    NewRoomAfterGame(s, oldCode, codeDraws);
    var active := Active(s, oldCode);
    OneHostMoved(s, CreateNewRoomAfterGame(s, oldCode, codeDraws), active,
                 Relocated(s, oldCode, codeDraws).value.code, OldHost(s, active));
  }

  /** Exactly one player of the new room is host. */
  lemma {:induction false} OneHostMoved(s: Store, t: Store, active: seq<PlayerId>, code: Code, host: PlayerId)
    requires MovedInto(s, t, active, code, host) && host in active && Distinct(active)
    ensures exists id :: id in t.players && t.players[id].roomCode == code && t.players[id].isHost
    ensures forall a, b ::
      (a in t.players && b in t.players && t.players[a].roomCode == code &&
       t.players[b].roomCode == code && t.players[a].isHost && t.players[b].isHost) ==> a == b
  {
    var i :| 0 <= i < |active| && active[i] == host;
    assert t.players[s.nextPlayerId + i].isHost;
    forall a, b | a in t.players && b in t.players && t.players[a].roomCode == code &&
      t.players[b].roomCode == code && t.players[a].isHost && t.players[b].isHost
      ensures a == b
    {
      assert active[a - s.nextPlayerId] == host && active[b - s.nextPlayerId] == host;
    }
  }

  /** The counts of a snapshot's vote list add up to the number of votes. */
  lemma VoteInfosCountEveryVote(s: Store, vs: seq<Vote>)
    ensures SumVoteCounts(MapToVoteInfos(s, vs)) == |vs|
  {
    var infos := MapToVoteInfos(s, vs);
    SumVoteCountsIsSumFor(s, vs, |infos|);
    assert infos[..|infos|] == infos;
    assert Targets(vs)[..|infos|] == Targets(vs);
    SumForTargets(vs);
  }

  lemma {:induction false} SumVoteCountsIsSumFor(s: Store, vs: seq<Vote>, k: nat)
    requires k <= |Targets(vs)|
    ensures SumVoteCounts(MapToVoteInfos(s, vs)[..k]) == SumFor(Targets(vs)[..k], vs)
  {
    if k > 0 {
      SumVoteCountsIsSumFor(s, vs, k - 1);
      assert MapToVoteInfos(s, vs)[..k][..k - 1] == MapToVoteInfos(s, vs)[..k - 1];
      assert Targets(vs)[..k][..k - 1] == Targets(vs)[..k - 1];
    }
  }
}
