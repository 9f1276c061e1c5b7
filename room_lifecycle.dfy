/**
 * The room lifecycle of GameRoomService as functions over the store:
 * creating and joining a room, starting a game and its first round, a
 * player leaving, and moving everyone to a fresh room after a game.
 * Public operations are bodies that may throw, committed by `Commit`.
 */
module RoomLifecycle {
  import opened Wrappers
  import opened Entities
  import opened Store
  import opened PlayerRepository
  import opened VoteRepository
  import opened Roles
  import opened RoomCodes
  import opened Requests

  /**
   * The theme of a new room: the group's random active theme when a group
   * is asked for and has one, otherwise any random active theme.
   * `byGroup` and `anyTheme` are what those two random queries return.
   */
  function ChooseTheme(themeGroup: Option<string>, byGroup: Option<Theme>, anyTheme: Option<Theme>): (r: Option<Theme>)
    ensures r.None? <==> anyTheme.None? && (themeGroup.None? || byGroup.None?)
    ensures themeGroup.Some? && byGroup.Some? ==> r == byGroup
    ensures themeGroup.None? || byGroup.None? ==> r == anyTheme
  {
    if themeGroup.Some? && byGroup.Some? then byGroup else anyTheme
  }

  /** The body of `createRoom`: a fresh code, a theme, then a LOBBY room saved under the code. */
  function CreateRoomBody(s: Store, req: RoomCreateRequest, codeDraws: seq<nat>,
                          byGroup: Option<Theme>, anyTheme: Option<Theme>): Step {
    match GeneratedCode(s.rooms.Keys, codeDraws)
    case None => Fail(CodeDrawsExhausted, s)
    case Some(code) =>
      var theme := ChooseTheme(req.themeGroup, byGroup, anyTheme);
      if theme.None? then Fail(NoThemeAvailable, s)
      else if req.maxPlayers.None? || req.roundLimit.None? then Fail(NullValue, s)
      else Ok(s.(rooms := s.rooms[code := NewRoom(code, req.maxPlayers.value, req.roundLimit.value, theme.value)]))
  }

  function CreateRoom(s: Store, req: RoomCreateRequest, codeDraws: seq<nat>,
                      byGroup: Option<Theme>, anyTheme: Option<Theme>): Store {
    Commit(s, CreateRoomBody(s, req, codeDraws, byGroup, anyTheme))
  }

  /**
   * The body of `joinRoom`: the room must be in LOBBY, not full, and the
   * nickname free among present players; the joiner is host iff nobody is
   * present. A missing or over-long nickname fails when the row is saved.
   */
  function JoinRoomBody(s: Store, code: Code, req: JoinRoomRequest): Step {
    if code !in s.rooms then Fail(RoomNotFound, s)
    else if s.rooms[code].state != LOBBY then Fail(GameAlreadyStarted, s)
    else
      var active := Active(s, code);
      if |active| >= s.rooms[code].maxPlayers then Fail(RoomFull, s)
      else if req.nickname.Some? && NicknameTaken(s, code, req.nickname.value) then Fail(NicknameInUse, s)
      else if req.nickname.None? then Fail(NullValue, s)
      else if |req.nickname.value| > NicknameLength then Fail(ValueTooLong, s)
      else
        var id := s.nextPlayerId;
        var s1 := SaveNew(s, NewPlayer(id, code, req.nickname.value, active == [], CITIZEN));
        Ok(Emit(Emit(s1, PlayerJoined(code, id)), RoomStateUpdate(code)))
  }

  function JoinRoom(s: Store, code: Code, req: JoinRoomRequest): Store {
    Commit(s, JoinRoomBody(s, code, req))
  }

  /** `endGame`: the room ends, without any message. */
  function EndGame(s: Store, code: Code): Store
    requires code in s.rooms
  {
    s.(rooms := s.rooms[code := s.rooms[code].(state := RoomState.END)])
  }

  /**
   * GameRoomService's `startNewRound`: nothing if the round exists; with
   * fewer than three present and alive players the room ends; otherwise
   * they are dealt and a READY round is created, without a broadcast.
   */
  function StartNewRound(s: Store, code: Code, idx: int, d: RoundDraw): Store
    requires code in s.rooms
  {
    var key := RoundKey(code, idx);
    if key in s.rounds then s
    else
      AliveAreActive(s, code);
      var alive := KeepAlive(s.players, Active(s, code));
      if |alive| < 3 then EndGame(s, code)
      else s.(players := Assign(s.players, alive, s.rooms[code].theme, d),
              rounds := s.rounds[key := NewRound(code, idx)])
  }

  /**
   * The body of `startGame`: the caller must be a host and at least three
   * players present. The room's state is not checked, nor whether the
   * host belongs to this room.
   */
  function StartGameBody(s: Store, code: Code, host: PlayerId, d: RoundDraw): Step {
    if code !in s.rooms then Fail(RoomNotFound, s)
    else if host !in s.players then Fail(PlayerNotFound, s)
    else if !s.players[host].isHost then Fail(NotHost, s)
    else if |Active(s, code)| < 3 then Fail(NotEnoughPlayers, s)
    else
      var s1 := s.(rooms := s.rooms[code := s.rooms[code].(state := ROUND, currentRound := Some(1))]);
      Ok(Emit(StartNewRound(s1, code, 1, d), GameStarted(code)))
  }

  function StartGame(s: Store, code: Code, host: PlayerId, d: RoundDraw): Store {
    Commit(s, StartGameBody(s, code, host, d))
  }

  /** The element-wise filter the bulk deletes apply. */
  function Keep<T(!new)>(xs: seq<T>, p: T -> bool): (r: seq<T>)
    ensures forall x :: x in r <==> x in xs && p(x)
    ensures |r| <= |xs|
  {
    if xs == [] then []
    else (if p(xs[0]) then [xs[0]] else []) + Keep(xs[1..], p)
  }

  /** Deleting votes keeps the unique constraint. */
  lemma {:induction false} KeepUnique(vs: seq<Vote>, p: Vote -> bool)
    ensures UniqueVotes(vs) ==> UniqueVotes(Keep(vs, p))
  {
    if vs != [] && UniqueVotes(vs) {
      var rest := vs[1..];
      assert UniqueVotes(rest) by {
        forall i, j | 0 <= i < j < |rest| ensures VoteKeyOf(rest[i]) != VoteKeyOf(rest[j]) {
          assert rest[i] == vs[i + 1] && rest[j] == vs[j + 1];
        }
      }
      KeepUnique(rest, p);
      var tail := Keep(rest, p);
      var head: seq<Vote> := if p(vs[0]) then [vs[0]] else [];
      var r := head + tail;
      forall i, j | 0 <= i < j < |r| ensures VoteKeyOf(r[i]) != VoteKeyOf(r[j]) {
        if i < |head| {
          assert r[j] in rest;
          var k :| 0 <= k < |rest| && rest[k] == r[j];
          assert vs[k + 1] == r[j];
        } else {
          assert r[i] == tail[i - |head|] && r[j] == tail[j - |head|];
        }
      }
      assert Keep(vs, p) == r;
    }
  }

  /** The player rows that do not belong to the room. */
  function PlayersOutside(ps: map<PlayerId, Player>, code: Code): (r: map<PlayerId, Player>)
    ensures forall id :: id in r <==> id in ps && ps[id].roomCode != code
    ensures forall id :: id in r ==> r[id] == ps[id]
  {
    map id | id in ps && ps[id].roomCode != code :: ps[id]
  }

  /** The round rows that do not belong to the room. */
  function RoundsOutside(rs: map<RoundKey, Round>, code: Code): (r: map<RoundKey, Round>)
    ensures forall k :: k in r <==> k in rs && k.code != code
    ensures forall k :: k in r ==> r[k] == rs[k]
  {
    map k | k in rs && k.code != code :: rs[k]
  }

  /** The votes and round messages of every round of the room are deleted, then the rounds. */
  function CleanupCurrentRoundData(s: Store, code: Code): (t: Store)
    ensures t == s.(votes := t.votes, messages := t.messages, rounds := t.rounds)
    ensures forall v :: v in t.votes <==> v in s.votes && v.round.code != code
    ensures forall m :: m in t.messages <==> m in s.messages && m.round.code != code
    ensures forall k :: k in t.rounds <==> k in s.rounds && k.code != code
    ensures forall k :: k in t.rounds ==> t.rounds[k] == s.rounds[k]
    ensures UniqueVotes(s.votes) ==> UniqueVotes(t.votes)
  {
    KeepUnique(s.votes, (v: Vote) => v.round.code != code);
    s.(votes := Keep(s.votes, (v: Vote) => v.round.code != code),
       messages := Keep(s.messages, (m: MessageLog) => m.round.code != code),
       rounds := RoundsOutside(s.rounds, code))
  }

  /** Everything stored for a room: its rounds' data, its messages, its players and the room itself. */
  function RemoveRoom(s: Store, code: Code): (t: Store)
    ensures t.events == s.events && t.nextPlayerId == s.nextPlayerId
    ensures t.rooms == s.rooms - {code}
    ensures forall v :: v in t.votes <==> v in s.votes && v.round.code != code
    ensures forall m :: m in t.messages <==> m in s.messages && m.round.code != code && m.roomCode != code
    ensures forall k :: k in t.rounds <==> k in s.rounds && k.code != code
    ensures forall id :: id in t.players <==> id in s.players && s.players[id].roomCode != code
    ensures forall id :: id in t.players ==> t.players[id] == s.players[id]
    ensures forall k :: k in t.rounds ==> t.rounds[k] == s.rounds[k]
    ensures UniqueVotes(s.votes) ==> UniqueVotes(t.votes)
  {
    var s1 := CleanupCurrentRoundData(s, code);
    s1.(messages := Keep(s1.messages, (m: MessageLog) => m.roomCode != code),
        players := PlayersOutside(s1.players, code),
        rooms := s1.rooms - {code})
  }

  /** `deleteRoomCompletely`: ROOM_DELETED goes out first, then the room and all it holds are removed. */
  function DeleteRoomCompletely(s: Store, code: Code, host: PlayerId): Store {
    RemoveRoom(Emit(s, RoomDeleted(code, host)), code)
  }

  /** A player as `resetAllPlayersForLobby` leaves it; the speaking order is kept. */
  function ForLobby(p: Player): Player {
    p.(role := CITIZEN, isAlive := true, cardWord := None)
  }

  /** `resetAllPlayersForLobby`. */
  function ResetAllPlayersForLobby(m: map<PlayerId, Player>, ids: seq<PlayerId>): (r: map<PlayerId, Player>)
    requires forall id :: id in ids ==> id in m
    ensures r.Keys == m.Keys
    ensures forall id :: id in r ==> r[id] == if id in ids then ForLobby(m[id]) else m[id]
  {
    if ids == [] then m
    else ResetAllPlayersForLobby(m[ids[0] := ForLobby(m[ids[0]])], ids[1..])
  }

  /**
   * `handlePlayerDisconnection`: an unknown room or player is ignored; a
   * host leaving deletes the room; anyone else leaves, and during a game
   * that interrupts it back to the lobby.
   */
  function HandlePlayerDisconnection(s: Store, code: Code, player: PlayerId): Store {
    if code !in s.rooms || player !in s.players then s
    else if s.players[player].isHost then DeleteRoomCompletely(s, code, player)
    else
      var s1 := s.(players := s.players[player := s.players[player].(hasLeft := true)]);
      var s2 :=
        if s.rooms[code].state == ROUND then
          var active := Active(s1, code);
          var s3 := CleanupCurrentRoundData(s1, code);
          var s4 := s3.(rooms := s3.rooms[code := s3.rooms[code].(state := LOBBY, currentRound := None)]);
          Emit(s4.(players := ResetAllPlayersForLobby(s4.players, active)), GameInterrupted(code, player))
        else Emit(s1, PlayerLeft(code, player));
      Emit(s2, RoomStateUpdate(code))
  }

  /** The first listed host, if any. */
  function FirstHost(s: Store, ids: seq<PlayerId>): (r: Option<PlayerId>)
    requires forall id :: id in ids ==> id in s.players
    ensures r.None? <==> forall id :: id in ids ==> !s.players[id].isHost
    ensures r.Some? ==> r.value in ids && s.players[r.value].isHost
  {
    if ids == [] then None
    else if s.players[ids[0]].isHost then Some(ids[0])
    else FirstHost(s, ids[1..])
  }

  /** The host kept in the new room: the first present host, else the first present player. */
  function OldHost(s: Store, active: seq<PlayerId>): (h: PlayerId)
    requires active != [] && forall id :: id in active ==> id in s.players
    ensures h in active
  {
    FirstHost(s, active).GetOr(active[0])
  }

  /** The player built for the new room: same nickname, CITIZEN, alive, host iff it was the kept host. */
  function Moved(s: Store, from: PlayerId, code: Code, host: PlayerId): Player
    requires from in s.players
  {
    NewPlayer(0, code, s.players[from].nickname, from == host, CITIZEN)
  }

  /** The first loop of `movePlayersToNewRoom`: one new player per old one, in order. */
  function MovedPlayers(s: Store, ids: seq<PlayerId>, code: Code, host: PlayerId): (ps: seq<Player>)
    requires forall id :: id in ids ==> id in s.players
    ensures |ps| == |ids| && forall i :: 0 <= i < |ids| ==> ps[i] == Moved(s, ids[i], code, host)
  {
    seq(|ids|, i requires 0 <= i < |ids| => Moved(s, ids[i], code, host))
  }

  /** The second loop: old id to new id, the i-th saved player getting `first + i`. */
  function IdMapping(ids: seq<PlayerId>, first: nat): (r: map<PlayerId, PlayerId>)
    requires Distinct(ids)
    ensures forall i :: 0 <= i < |ids| ==> ids[i] in r && r[ids[i]] == first + i
  {
    if ids == [] then map[]
    else
      var init := ids[..|ids| - 1];
      assert forall i :: 0 <= i < |init| ==> init[i] == ids[i];
      assert ids == init + [ids[|ids| - 1]];
      IdMapping(init, first)[ids[|ids| - 1] := first + |ids| - 1]
  }

  /** What `createNewRoomAfterGame` returns: the new room code and the id mapping. */
  datatype Relocation = Relocation(code: Code, mapping: map<PlayerId, PlayerId>)

  /**
   * The body of `createNewRoomAfterGame`: with nobody present nothing
   * happens; otherwise a LOBBY room with the old settings is created, the
   * present players are copied into it and the old room is removed.
   */
  function CreateNewRoomAfterGameBody(s: Store, oldCode: Code, codeDraws: seq<nat>): Step {
    if oldCode !in s.rooms then Fail(RoomNotFound, s)
    else
      var active := Active(s, oldCode);
      if active == [] then Ok(s)
      else
        match GeneratedCode(s.rooms.Keys, codeDraws)
        case None => Fail(CodeDrawsExhausted, s)
        case Some(code) =>
          var room := s.rooms[oldCode];
          var s1 := s.(rooms := s.rooms[code := NewRoom(code, room.maxPlayers, room.roundLimit, room.theme)]);
          var s2 := SaveAll(s1, MovedPlayers(s, active, code, OldHost(s, active)));
          Ok(RemoveRoom(s2, oldCode))
  }

  function CreateNewRoomAfterGame(s: Store, oldCode: Code, codeDraws: seq<nat>): Store {
    Commit(s, CreateNewRoomAfterGameBody(s, oldCode, codeDraws))
  }

  /** The value `createNewRoomAfterGame` returns; None stands for null. */
  function Relocated(s: Store, oldCode: Code, codeDraws: seq<nat>): Option<Relocation>
    requires oldCode in s.rooms
  {
    var active := Active(s, oldCode);
    var code := GeneratedCode(s.rooms.Keys, codeDraws);
    if active == [] || code.None? then None
    else Some(Relocation(code.value, IdMapping(active, s.nextPlayerId)))
  }

  /** One entry of a room snapshot's vote list. */
  datatype VoteInfo = VoteInfo(targetPlayerId: PlayerId, targetNickname: string, voteCount: nat, isFinalVote: bool)

  /**
   * `mapToVoteInfos`: one entry per voted-for target with its count and
   * nickname ("Unknown" if the player is gone); every entry carries the
   * first vote's isFinalVote flag.
   */
  function MapToVoteInfos(s: Store, vs: seq<Vote>): (r: seq<VoteInfo>)
    ensures |r| == |Targets(vs)|
    ensures forall i :: 0 <= i < |r| ==>
      r[i].targetPlayerId == Targets(vs)[i] && r[i].voteCount == CountFor(vs, Targets(vs)[i]) &&
      r[i].isFinalVote == (vs != [] && vs[0].isFinalVote) &&
      r[i].targetNickname == if Targets(vs)[i] in s.players then s.players[Targets(vs)[i]].nickname else "Unknown"
  {
    var cs := CountByTarget(vs);
    var isFinal := vs != [] && vs[0].isFinalVote;
    seq(|cs|, i requires 0 <= i < |cs| =>
      VoteInfo(cs[i].target, if cs[i].target in s.players then s.players[cs[i].target].nickname else "Unknown",
               cs[i].count, isFinal))
  }

  function SumVoteCounts(infos: seq<VoteInfo>): nat {
    if infos == [] then 0 else SumVoteCounts(infos[..|infos| - 1]) + infos[|infos| - 1].voteCount
  }
}
