/**
 * The browser client's view of the room (the AppState of game.js) and
 * the handlers that change it: a player joining or leaving, a room
 * snapshot arriving, the return to the waiting room after a game, and
 * the self-vote guard before a vote request goes out. The list builtins
 * the handlers call (findIndex, find, filter, map) are functions here.
 */
module ClientState {
  import opened Wrappers
  import opened Entities

  /** A player entry as the client holds it; null fields are None. */
  datatype PlayerView = PlayerView(
    playerId: PlayerId,
    nickname: string,
    isHost: bool,
    isAlive: bool,
    orderNo: Option<int>,
    role: Option<PlayerRole>,
    cardWord: Option<string>)

  /** `AppState.roomInfo`. */
  datatype RoomInfo = RoomInfo(
    code: Option<Code>,
    maxPlayers: Option<int>,
    roundLimit: Option<int>,
    currentRound: Option<int>,
    state: Option<RoomState>)

  /** `AppState.playerInfo`: the local player. */
  datatype PlayerInfo = PlayerInfo(
    id: Option<PlayerId>,
    nickname: Option<string>,
    isHost: bool,
    role: Option<PlayerRole>,
    cardWord: Option<string>)

  /**
   * The fields of a room snapshot that `updateRoomState` reads or spreads
   * over roomInfo. The snapshot names the room state `roomState`, so it
   * does not overwrite roomInfo's `state`.
   */
  datatype RoomSnapshot = RoomSnapshot(
    maxPlayers: Option<int>,
    roundLimit: Option<int>,
    currentRound: Option<int>,
    players: Option<seq<PlayerView>>)

  /** The vote request `handleVoteSubmit` posts. */
  datatype VoteRequest = VoteRequest(code: Option<Code>, voter: Option<PlayerId>, target: PlayerId, roundIdx: Option<int>)

  /** No two entries share a player id. */
  predicate UniqueIds(ps: seq<PlayerView>) {
    forall i, j :: 0 <= i < j < |ps| ==> ps[i].playerId != ps[j].playerId
  }

  predicate HasId(ps: seq<PlayerView>, id: PlayerId) {
    exists k :: 0 <= k < |ps| && ps[k].playerId == id
  }

  /** `findIndex(p => p.playerId === id)`: the first matching position, or -1. */
  function IndexOfId(ps: seq<PlayerView>, id: PlayerId): (r: int)
    ensures -1 <= r < |ps|
    ensures r == -1 <==> !HasId(ps, id)
    ensures r >= 0 ==> ps[r].playerId == id && forall k :: 0 <= k < r ==> ps[k].playerId != id
  {
    if ps == [] then -1
    else if ps[0].playerId == id then 0
    else
      var r := IndexOfId(ps[1..], id);
      assert forall k :: 1 <= k < |ps| ==> ps[k] == ps[1..][k - 1];
      if r < 0 then -1 else r + 1
  }

  /** `find(p => p.playerId === id)`: the first matching entry. */
  function FindById(ps: seq<PlayerView>, id: Option<PlayerId>): (r: Option<PlayerView>)
    ensures r.None? <==> id.None? || !HasId(ps, id.value)
    ensures r.Some? ==> r.value == ps[IndexOfId(ps, id.value)]
  {
    if id.None? then None
    else
      var i := IndexOfId(ps, id.value);
      if i < 0 then None else Some(ps[i])
  }

  /** What `handlePlayerJoined` makes of the list: the entry with the same id replaced, or the player appended. */
  function Joined(ps: seq<PlayerView>, p: PlayerView): (r: seq<PlayerView>)
    ensures |r| == if HasId(ps, p.playerId) then |ps| else |ps| + 1
    ensures p in r
    ensures forall k :: 0 <= k < |ps| && ps[k].playerId != p.playerId ==> r[k] == ps[k]
    ensures !HasId(ps, p.playerId) ==> r == ps + [p]
  {
    var i := IndexOfId(ps, p.playerId);
    if i >= 0 then
      var r := ps[i := p];
      assert r[i] == p;
      r
    else ps + [p]
  }

  /** `filter(p => p.playerId !== id)`. */
  function WithoutId(ps: seq<PlayerView>, id: PlayerId): (r: seq<PlayerView>)
    ensures forall x :: x in r <==> x in ps && x.playerId != id
    ensures !HasId(r, id)
    ensures |r| <= |ps|
  {
    if ps == [] then []
    else
      var rest := WithoutId(ps[1..], id);
      if ps[0].playerId == id then rest else [ps[0]] + rest
  }

  /** An entry as `returnToWaitingRoom` leaves it. */
  function ForLobby(p: PlayerView): PlayerView {
    p.(role := Some(CITIZEN), isAlive := true, cardWord := None)
  }

  /** The `map` of `returnToWaitingRoom`. */
  function ResetForLobby(ps: seq<PlayerView>): (r: seq<PlayerView>)
    ensures |r| == |ps|
    ensures forall i :: 0 <= i < |ps| ==>
      r[i].role == Some(CITIZEN) && r[i].isAlive && r[i].cardWord == None &&
      r[i].playerId == ps[i].playerId && r[i].nickname == ps[i].nickname &&
      r[i].isHost == ps[i].isHost && r[i].orderNo == ps[i].orderNo
  {
    seq(|ps|, i requires 0 <= i < |ps| => ForLobby(ps[i]))
  }

  /** The spread `{...roomInfo, ...snapshot}`, on the fields roomInfo has. */
  function Merged(info: RoomInfo, snap: RoomSnapshot): (r: RoomInfo)
    ensures r.code == info.code && r.state == info.state
    ensures r.maxPlayers == snap.maxPlayers && r.roundLimit == snap.roundLimit && r.currentRound == snap.currentRound
  {
    info.(maxPlayers := snap.maxPlayers, roundLimit := snap.roundLimit, currentRound := snap.currentRound)
  }

  /** Joining keeps the ids unique. */
  lemma JoinedKeepsIdsUnique(ps: seq<PlayerView>, p: PlayerView)
    requires UniqueIds(ps)
    ensures UniqueIds(Joined(ps, p))
  {
    var i := IndexOfId(ps, p.playerId);
    if i < 0 {
      var r := ps + [p];
      forall a, b | 0 <= a < b < |r| ensures r[a].playerId != r[b].playerId {
        if b == |ps| {
          assert !HasId(ps, p.playerId);
          assert ps[a].playerId != p.playerId;
        }
      }
    }
  }

  /** Joining again with the same entry changes nothing. */
  lemma JoinedIdempotent(ps: seq<PlayerView>, p: PlayerView)
    ensures Joined(Joined(ps, p), p) == Joined(ps, p)
  {
    var r := Joined(ps, p);
    var i := IndexOfId(ps, p.playerId);
    if i < 0 {
      assert r[|ps|] == p;
      assert HasId(r, p.playerId);
      assert IndexOfId(r, p.playerId) == |ps|;
    } else {
      assert r[i] == p;
      assert IndexOfId(r, p.playerId) == i;
    }
  }

  /** The filter works entry by entry, so the kept entries stay in their order. */
  lemma {:induction false} WithoutIdAppend(a: seq<PlayerView>, b: seq<PlayerView>, id: PlayerId)
    ensures WithoutId(a + b, id) == WithoutId(a, id) + WithoutId(b, id)
  {
    if a == [] {
      assert a + b == b;
    } else {
      assert (a + b)[0] == a[0] && (a + b)[1..] == a[1..] + b;
      WithoutIdAppend(a[1..], b, id);
    }
  }

  /** Dropping a player keeps the ids unique. */
  lemma {:induction false} WithoutIdKeepsUnique(ps: seq<PlayerView>, id: PlayerId)
    requires UniqueIds(ps)
    ensures UniqueIds(WithoutId(ps, id))
  {
    if ps != [] {
      var rest := ps[1..];
      assert UniqueIds(rest) by {
        forall a, b | 0 <= a < b < |rest| ensures rest[a].playerId != rest[b].playerId {
          assert rest[a] == ps[a + 1] && rest[b] == ps[b + 1];
        }
      }
      WithoutIdKeepsUnique(rest, id);
      var kept := WithoutId(rest, id);
      if ps[0].playerId != id {
        var r := [ps[0]] + kept;
        forall a, b | 0 <= a < b < |r| ensures r[a].playerId != r[b].playerId {
          if a == 0 {
            assert r[b] == kept[b - 1] && r[b] in rest;
            var k :| 0 <= k < |rest| && rest[k] == r[b];
            assert ps[k + 1] == r[b];
          } else {
            assert r[a] == kept[a - 1] && r[b] == kept[b - 1];
          }
        }
      }
    }
  }

  /** A player who is not listed leaves the list as it was. */
  lemma {:induction false} WithoutAbsentId(ps: seq<PlayerView>, id: PlayerId)
    requires !HasId(ps, id)
    ensures WithoutId(ps, id) == ps
  {
    if ps != [] {
      assert ps[0].playerId != id;
      assert !HasId(ps[1..], id) by {
        forall k | 0 <= k < |ps[1..]| ensures ps[1..][k].playerId != id {
          assert ps[1..][k] == ps[k + 1];
        }
      }
      WithoutAbsentId(ps[1..], id);
      assert ps == [ps[0]] + ps[1..];
    }
  }

  /** The client's state. */
  class AppState {
    var gameState: Option<string>
    var gamePhase: Option<string>
    var playerInfo: PlayerInfo
    var roomInfo: RoomInfo
    var players: seq<PlayerView>
    /** Vote requests posted, in order. */
    var voteRequests: seq<VoteRequest>

    /** The initial AppState of app.js. */
    constructor ()
      ensures gameState.None? && gamePhase.None? && players == [] && voteRequests == []
      ensures playerInfo == PlayerInfo(None, None, false, None, None)
      ensures roomInfo == RoomInfo(None, Some(6), Some(3), Some(1), None)
    {
      gameState, gamePhase := None, None;
      playerInfo := PlayerInfo(None, None, false, None, None);
      roomInfo := RoomInfo(None, Some(6), Some(3), Some(1), None);
      players, voteRequests := [], [];
    }

    /** `handlePlayerJoined`: a message without a player changes nothing. */
    method HandlePlayerJoined(player: Option<PlayerView>)
      modifies this
      ensures players == if player.None? then old(players) else Joined(old(players), player.value)
      ensures gameState == old(gameState) && gamePhase == old(gamePhase) && playerInfo == old(playerInfo)
      ensures roomInfo == old(roomInfo) && voteRequests == old(voteRequests)
    {
      if player.None? {
        return;
      }
      var p := player.value;
      var existingIndex := IndexOfId(players, p.playerId);
      if existingIndex >= 0 {
        players := players[existingIndex := p];
      } else {
        players := players + [p];
      }
    }

    /** `handlePlayerLeft`: every entry with the leaver's id is dropped. */
    method HandlePlayerLeft(player: Option<PlayerView>)
      modifies this
      ensures players == if player.None? then old(players) else WithoutId(old(players), player.value.playerId)
      ensures gameState == old(gameState) && gamePhase == old(gamePhase) && playerInfo == old(playerInfo)
      ensures roomInfo == old(roomInfo) && voteRequests == old(voteRequests)
    {
      if player.None? {
        return;
      }
      players := WithoutId(players, player.value.playerId);
    }

    /** `updateRoomState`: the snapshot's list replaces the local one, and the local host flag follows it. */
    method UpdateRoomState(snapshot: Option<RoomSnapshot>)
      modifies this
      ensures snapshot.None? ==>
        players == old(players) && roomInfo == old(roomInfo) && playerInfo == old(playerInfo)
      ensures snapshot.Some? ==>
        roomInfo == Merged(old(roomInfo), snapshot.value) &&
        players == snapshot.value.players.GetOr([]) &&
        var mine := FindById(players, old(playerInfo).id);
        playerInfo == if mine.Some? then old(playerInfo).(isHost := mine.value.isHost) else old(playerInfo)
      ensures gameState == old(gameState) && gamePhase == old(gamePhase) && voteRequests == old(voteRequests)
    {
      if snapshot.None? {
        return;
      }
      roomInfo := Merged(roomInfo, snapshot.value);
      players := snapshot.value.players.GetOr([]);
      var myPlayer := FindById(players, playerInfo.id);
      if myPlayer.Some? {
        playerInfo := playerInfo.(isHost := myPlayer.value.isHost);
      }
    }

    /** `returnToWaitingRoom`. */
    method ReturnToWaitingRoom()
      modifies this
      ensures gameState.None? && gamePhase.None?
      ensures roomInfo == old(roomInfo).(state := Some(LOBBY), currentRound := Some(1))
      ensures playerInfo == old(playerInfo).(role := None, cardWord := None)
      ensures players == ResetForLobby(old(players))
      ensures voteRequests == old(voteRequests)
    {
      gameState := None;
      gamePhase := None;
      roomInfo := roomInfo.(state := Some(LOBBY));
      roomInfo := roomInfo.(currentRound := Some(1));
      playerInfo := playerInfo.(role := None);
      playerInfo := playerInfo.(cardWord := None);
      players := ResetForLobby(players);
    }

    /** `handleVoteSubmit`: a vote for oneself is refused before any request goes out. */
    method HandleVoteSubmit(target: PlayerId) returns (sent: bool)
      modifies this
      ensures sent <==> playerInfo.id != Some(target)
      ensures voteRequests == old(voteRequests) +
        (if sent then [VoteRequest(roomInfo.code, playerInfo.id, target, roomInfo.currentRound)] else [])
      ensures players == old(players) && roomInfo == old(roomInfo) && playerInfo == old(playerInfo)
      ensures gameState == old(gameState) && gamePhase == old(gamePhase)
    {
      if playerInfo.id == Some(target) {
        return false;
      }
      voteRequests := voteRequests + [VoteRequest(roomInfo.code, playerInfo.id, target, roomInfo.currentRound)];
      return true;
    }
  }
}
