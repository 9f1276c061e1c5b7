/**
 * GameRoomService as methods on the database object. Each method updates
 * the tables in place and in the order the service does. Each is proved
 * to reach exactly the store its function in RoomLifecycle describes.
 * A public operation that throws rolls the tables back.
 */
module GameRoomService {
  import opened Wrappers
  import opened Entities
  import opened Store
  import opened PlayerRepository
  import opened Roles
  import opened RoomCodes
  import opened Requests
  import opened Dealing
  import RoomLifecycle

  /** `createRoom`: returns the new room's code. */
  method CreateRoom(db: Db, req: RoomCreateRequest, codeDraws: seq<nat>, byGroup: Option<Theme>, anyTheme: Option<Theme>)
    returns (err: Option<Error>, code: Option<Code>)
    modifies db
    ensures err == RoomLifecycle.CreateRoomBody(old(db.State()), req, codeDraws, byGroup, anyTheme).err
    ensures db.State() == RoomLifecycle.CreateRoom(old(db.State()), req, codeDraws, byGroup, anyTheme)
    ensures code == if err.None? then GeneratedCode(old(db.rooms).Keys, codeDraws) else None
  {
    var generated := GenerateRoomCode(db.rooms.Keys, codeDraws);
    if generated.None? {
      return Some(CodeDrawsExhausted), None;
    }
    var theme: Option<Theme> := None;
    if req.themeGroup.Some? {
      theme := byGroup;
    }
    if theme.None? {
      theme := anyTheme;
      if theme.None? {
        return Some(NoThemeAvailable), None;
      }
    }
    if req.maxPlayers.None? || req.roundLimit.None? {
      return Some(NullValue), None;
    }
    var c := generated.value;
    db.rooms := db.rooms[c := NewRoom(c, req.maxPlayers.value, req.roundLimit.value, theme.value)];
    return None, generated;
  }

  /** `joinRoom`: returns the id of the saved player. */
  method JoinRoom(db: Db, code: Code, req: JoinRoomRequest) returns (err: Option<Error>, player: Option<PlayerId>)
    modifies db
    ensures err == RoomLifecycle.JoinRoomBody(old(db.State()), code, req).err
    ensures db.State() == RoomLifecycle.JoinRoom(old(db.State()), code, req)
    ensures player == if err.None? then Some(old(db.nextPlayerId)) else None
  {
    if code !in db.rooms {
      return Some(RoomNotFound), None;
    }
    var room := db.rooms[code];
    if room.state != LOBBY {
      return Some(GameAlreadyStarted), None;
    }
    var active := Active(db.State(), code);
    if |active| >= room.maxPlayers {
      return Some(RoomFull), None;
    }
    if req.nickname.Some? && NicknameTaken(db.State(), code, req.nickname.value) {
      return Some(NicknameInUse), None;
    }
    if req.nickname.None? {
      return Some(NullValue), None;
    }
    if |req.nickname.value| > NicknameLength {
      return Some(ValueTooLong), None;
    }
    var id := db.nextPlayerId;
    db.players := db.players[id := WithId(NewPlayer(id, code, req.nickname.value, active == [], CITIZEN), id)];
    db.nextPlayerId := id + 1;
    db.Send(PlayerJoined(code, id));
    db.Send(RoomStateUpdate(code));
    return None, Some(id);
  }

  /** `assignRoles`: shuffle, the first becomes the liar, the rest citizens with one word; returns the shuffled list. */
  method AssignRoles(db: Db, players: seq<PlayerId>, theme: Theme, d: RoundDraw) returns (order: seq<PlayerId>)
    requires forall id :: id in players ==> id in db.players
    requires |players| > 0
    modifies db
    ensures order == Shuffle(players, d.roleDraws)
    ensures db.State() == old(db.State()).(players :=
      MakeCitizens(old(db.players)[order[0] := AsLiar(old(db.players)[order[0]])], order[1..], CitizenWord(theme, d)))
  {
    order := ShuffleList(players, d.roleDraws);
    assert forall id :: id in order ==> id in multiset(players);
    var word := CitizenWord(theme, d);
    MakeLiarIn(db, order[0]);
    assert forall id :: id in order[1..] ==> id in order;
    MakeCitizensIn(db, order[1..], word);
  }

  /** `assignSpeakingOrder`: shuffles the list again and numbers it from 1. */
  method AssignSpeakingOrder(db: Db, players: seq<PlayerId>, d: RoundDraw)
    requires forall id :: id in players ==> id in db.players
    requires Distinct(players)
    modifies db
    ensures db.State() == old(db.State()).(players := Number(old(db.players), Shuffle(players, d.orderDraws), 1))
  {
    var spoken := ShuffleList(players, d.orderDraws);
    assert forall id :: id in spoken ==> id in multiset(players);
    NumberIn(db, spoken);
  }

  /** The present players' stream filtered by isAlive. */
  method AlivePlayers(db: Db, active: seq<PlayerId>) returns (alive: seq<PlayerId>)
    ensures alive == KeepAlive(db.players, active)
  {
    alive := [];
    var i := 0;
    while i < |active|
      invariant 0 <= i <= |active|
      invariant alive == KeepAlive(db.players, active[..i])
    {
      var id := active[i];
      assert active[..i + 1][..i] == active[..i];
      if id in db.players && db.players[id].isAlive {
        alive := alive + [id];
      }
      i := i + 1;
    }
    assert active[..|active|] == active;
  }

  /** GameRoomService's `startNewRound`: no broadcast, and too few alive players end the game. */
  method StartNewRound(db: Db, code: Code, idx: int, d: RoundDraw)
    requires code in db.rooms
    modifies db
    ensures db.State() == RoomLifecycle.StartNewRound(old(db.State()), code, idx, d)
  {
    var key := RoundKey(code, idx);
    if key in db.rounds {
      return;
    }
    var active := Active(db.State(), code);
    var alive := AlivePlayers(db, active);
    AliveAreActive(db.State(), code);
    if |alive| < 3 {
      db.rooms := db.rooms[code := db.rooms[code].(state := RoomState.END)];
      return;
    }
    var theme := db.rooms[code].theme;
    var order := AssignRoles(db, alive, theme, d);
    AssignSpeakingOrder(db, order, d);
    db.rounds := db.rounds[key := NewRound(code, idx)];
  }

  /** `startGame`: the room enters ROUND at round 1, the round is dealt, then GAME_STARTED goes out. */
  method StartGame(db: Db, code: Code, host: PlayerId, d: RoundDraw) returns (err: Option<Error>)
    modifies db
    ensures err == RoomLifecycle.StartGameBody(old(db.State()), code, host, d).err
    ensures db.State() == RoomLifecycle.StartGame(old(db.State()), code, host, d)
  {
    if code !in db.rooms { return Some(RoomNotFound); }
    if host !in db.players { return Some(PlayerNotFound); }
    if !db.players[host].isHost { return Some(NotHost); }
    var active := Active(db.State(), code);
    if |active| < 3 { return Some(NotEnoughPlayers); }
    db.rooms := db.rooms[code := db.rooms[code].(state := ROUND, currentRound := Some(1))];
    StartNewRound(db, code, 1, d);
    db.Send(GameStarted(code));
    err := None;
  }

  /** `cleanupCurrentRoundData`: the room's votes, round messages and rounds are deleted. */
  method CleanupCurrentRoundData(db: Db, code: Code)
    modifies db
    ensures db.State() == RoomLifecycle.CleanupCurrentRoundData(old(db.State()), code)
  {
    db.votes := RoomLifecycle.Keep(db.votes, (v: Vote) => v.round.code != code);
    db.messages := RoomLifecycle.Keep(db.messages, (m: MessageLog) => m.round.code != code);
    db.rounds := RoomLifecycle.RoundsOutside(db.rounds, code);
  }

  /** The deletions `deleteRoomCompletely` and `cleanupOldRoom` share. */
  method RemoveRoom(db: Db, code: Code)
    modifies db
    ensures db.State() == RoomLifecycle.RemoveRoom(old(db.State()), code)
  {
    CleanupCurrentRoundData(db, code);
    db.messages := RoomLifecycle.Keep(db.messages, (m: MessageLog) => m.roomCode != code);
    db.players := RoomLifecycle.PlayersOutside(db.players, code);
    db.rooms := db.rooms - {code};
  }

  /** `deleteRoomCompletely`: ROOM_DELETED first, then the deletions. */
  method DeleteRoomCompletely(db: Db, code: Code, host: PlayerId)
    modifies db
    ensures db.State() == RoomLifecycle.DeleteRoomCompletely(old(db.State()), code, host)
  {
    db.Send(RoomDeleted(code, host));
    RemoveRoom(db, code);
  }

  /** `resetAllPlayersForLobby`: each listed player a living citizen without a word. */
  method ResetAllPlayersForLobby(db: Db, ids: seq<PlayerId>)
    requires forall id :: id in ids ==> id in db.players
    modifies db
    ensures db.State() == old(db.State()).(players := RoomLifecycle.ResetAllPlayersForLobby(old(db.players), ids))
  {
    var i := 0;
    while i < |ids|
      invariant 0 <= i <= |ids|
      invariant db.players.Keys == old(db.players).Keys
      invariant RoomLifecycle.ResetAllPlayersForLobby(db.players, ids[i..]) ==
                RoomLifecycle.ResetAllPlayersForLobby(old(db.players), ids)
      invariant db.State() == old(db.State()).(players := db.players)
    {
      var id := ids[i];
      assert ids[i..][1..] == ids[i + 1..];
      db.players := db.players[id := RoomLifecycle.ForLobby(db.players[id])];
      i := i + 1;
    }
  }

  /** `handlePlayerDisconnection`. */
  method HandlePlayerDisconnection(db: Db, code: Code, player: PlayerId)
    modifies db
    ensures db.State() == RoomLifecycle.HandlePlayerDisconnection(old(db.State()), code, player)
  {
    if code !in db.rooms || player !in db.players {
      return;
    }
    if db.players[player].isHost {
      DeleteRoomCompletely(db, code, player);
      return;
    }
    db.players := db.players[player := db.players[player].(hasLeft := true)];
    if db.rooms[code].state == ROUND {
      var active := Active(db.State(), code);
      CleanupCurrentRoundData(db, code);
      db.rooms := db.rooms[code := db.rooms[code].(state := LOBBY, currentRound := None)];
      ResetAllPlayersForLobby(db, active);
      db.Send(GameInterrupted(code, player));
    } else {
      db.Send(PlayerLeft(code, player));
    }
    db.Send(RoomStateUpdate(code));
  }

  /** The first loop of `movePlayersToNewRoom`: the new players, not yet saved. */
  method NewPlayersFor(db: Db, ids: seq<PlayerId>, code: Code, host: PlayerId) returns (ps: seq<Player>)
    requires forall id :: id in ids ==> id in db.players
    ensures ps == RoomLifecycle.MovedPlayers(db.State(), ids, code, host)
  {
    ps := [];
    var i := 0;
    while i < |ids|
      invariant 0 <= i <= |ids| && |ps| == i
      invariant forall j :: 0 <= j < i ==> ps[j] == RoomLifecycle.Moved(db.State(), ids[j], code, host)
    {
      var from := ids[i];
      ps := ps + [NewPlayer(0, code, db.players[from].nickname, from == host, CITIZEN)];
      i := i + 1;
    }
  }

  /** `saveAll` of new players; returns them as saved, with their ids. */
  method SaveAllIn(db: Db, ps: seq<Player>) returns (saved: seq<Player>)
    modifies db
    ensures db.State() == SaveAll(old(db.State()), ps)
    ensures |saved| == |ps| && forall i :: 0 <= i < |ps| ==> saved[i] == WithId(ps[i], old(db.nextPlayerId) + i)
  {
    saved := [];
    var i := 0;
    while i < |ps|
      invariant 0 <= i <= |ps| && |saved| == i
      invariant db.nextPlayerId == old(db.nextPlayerId) + i
      invariant SaveAll(db.State(), ps[i..]) == SaveAll(old(db.State()), ps)
      invariant forall j :: 0 <= j < i ==> saved[j] == WithId(ps[j], old(db.nextPlayerId) + j)
    {
      ghost var before := db.State();
      var id := db.nextPlayerId;
      var row := WithId(ps[i], id);
      db.players := db.players[id := row];
      db.nextPlayerId := id + 1;
      assert SaveAll(db.State(), ps[i + 1..]) == SaveAll(old(db.State()), ps) by {
        SaveAllStep(before, ps, i);
        assert db.State() == SaveNew(before, ps[i]);
      }
      saved := saved + [row];
      i := i + 1;
    }
  }

  /** Saving the rest of the list from position i is saving the i-th player, then the rest after it. */
  lemma {:induction false} SaveAllStep(s: Store, ps: seq<Player>, i: nat)
    requires i < |ps|
    ensures SaveAll(s, ps[i..]) == SaveAll(SaveNew(s, ps[i]), ps[i + 1..])
  {
    assert ps[i..][0] == ps[i] && ps[i..][1..] == ps[i + 1..];
  }

  /** The second loop of `movePlayersToNewRoom`: old id to the id the i-th new player was saved under. */
  method MappingFor(ids: seq<PlayerId>, saved: seq<Player>, first: nat) returns (mapping: map<PlayerId, PlayerId>)
    requires Distinct(ids) && |saved| == |ids|
    requires forall i :: 0 <= i < |ids| ==> saved[i].id == first + i
    ensures mapping == RoomLifecycle.IdMapping(ids, first)
  {
    mapping := map[];
    var i := 0;
    while i < |ids|
      invariant 0 <= i <= |ids|
      invariant mapping == RoomLifecycle.IdMapping(ids[..i], first)
    {
      IdMappingGrows(ids, i, first);
      mapping := mapping[ids[i] := saved[i].id];
      i := i + 1;
    }
    assert ids[..|ids|] == ids;
  }

  /** A prefix of the id list maps one more id than the prefix before it. */
  lemma {:induction false} IdMappingGrows(ids: seq<PlayerId>, i: nat, first: nat)
    requires Distinct(ids) && i < |ids|
    ensures Distinct(ids[..i]) && Distinct(ids[..i + 1])
    ensures RoomLifecycle.IdMapping(ids[..i + 1], first) == RoomLifecycle.IdMapping(ids[..i], first)[ids[i] := first + i]
  {
    var next := ids[..i + 1];
    var prefix := ids[..i];
    assert next[..|next| - 1] == prefix;
    assert next[|next| - 1] == ids[i] && first + |next| - 1 == first + i;
    assert Distinct(prefix);
    assert Distinct(next);
    ghost var a := RoomLifecycle.IdMapping(next, first);
    ghost var b := RoomLifecycle.IdMapping(prefix, first);
    assert a == RoomLifecycle.IdMapping(next[..|next| - 1], first)[next[|next| - 1] := first + |next| - 1];
    assert a == b[ids[i] := first + i];
  }

  /** `movePlayersToNewRoom`: save a copy of each player in the new room; returns the id mapping. */
  method MovePlayersToNewRoom(db: Db, ids: seq<PlayerId>, code: Code, host: PlayerId)
    returns (mapping: map<PlayerId, PlayerId>)
    requires forall id :: id in ids ==> id in db.players
    requires Distinct(ids)
    modifies db
    ensures db.State() == SaveAll(old(db.State()), RoomLifecycle.MovedPlayers(old(db.State()), ids, code, host))
    ensures mapping == RoomLifecycle.IdMapping(ids, old(db.nextPlayerId))
  {
    var first := db.nextPlayerId;
    var ps := NewPlayersFor(db, ids, code, host);
    var saved := SaveAllIn(db, ps);
    mapping := MappingFor(ids, saved, first);
  }

  /** `createNewRoomAfterGame`: returns the new code and the id mapping, or None when nobody is present. */
  method CreateNewRoomAfterGame(db: Db, oldCode: Code, codeDraws: seq<nat>)
    returns (err: Option<Error>, result: Option<RoomLifecycle.Relocation>)
    modifies db
    ensures err == RoomLifecycle.CreateNewRoomAfterGameBody(old(db.State()), oldCode, codeDraws).err
    ensures db.State() == RoomLifecycle.CreateNewRoomAfterGame(old(db.State()), oldCode, codeDraws)
    ensures err.None? ==> result == RoomLifecycle.Relocated(old(db.State()), oldCode, codeDraws)
    ensures err.Some? ==> result.None?
  {
    if oldCode !in db.rooms {
      return Some(RoomNotFound), None;
    }
    var s0 := db.State();
    var oldRoom := db.rooms[oldCode];
    var active := Active(s0, oldCode);
    if active == [] {
      return None, None;
    }
    var host := RoomLifecycle.OldHost(s0, active);
    var generated := GenerateRoomCode(db.rooms.Keys, codeDraws);
    if generated.None? {
      return Some(CodeDrawsExhausted), None;
    }
    var code := generated.value;
    db.rooms := db.rooms[code := NewRoom(code, oldRoom.maxPlayers, oldRoom.roundLimit, oldRoom.theme)];
    assert RoomLifecycle.MovedPlayers(db.State(), active, code, host) == RoomLifecycle.MovedPlayers(s0, active, code, host);
    var mapping := MovePlayersToNewRoom(db, active, code, host);
    RemoveRoom(db, oldCode);
    return None, Some(RoomLifecycle.Relocation(code, mapping));
  }
}
