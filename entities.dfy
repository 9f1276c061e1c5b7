/**
 * The persistent entities of the game: rooms, players, rounds, votes and
 * message logs, with the enums and the defaults their builders apply.
 * Database identities are modelled by keys: a room by its unique code,
 * a player by its generated id, a round by its (room, idx) pair.
 */
module Entities {
  import opened Wrappers

  type PlayerId = nat
  type Code = string

  /** The phases of one round. */
  datatype RoundState =
    | READY | DESC | DESC_COMPLETE | VOTE | FINAL_DEFENSE
    | FINAL_DEFENSE_COMPLETE | FINAL_VOTING | JUDGE | END

  /** The phases of a room. */
  datatype RoomState = LOBBY | ROUND | END

  datatype PlayerRole = LIAR | CITIZEN

  datatype MessageType = DESC | FINAL_DEFENSE

  /** A theme supplies the two candidate citizen words of a game. */
  datatype Theme = Theme(themeGroup: string, wordA: string, wordB: string)

  /** The identity of a round: the unique constraint on (room, idx). */
  datatype RoundKey = RoundKey(code: Code, idx: int)

  datatype GameRoom = GameRoom(
    code: Code,
    maxPlayers: int,
    roundLimit: int,
    state: RoomState,
    currentRound: Option<int>,
    theme: Theme)

  /** `hasLeft` stands for `leftAt != null`; the timestamp itself is not modelled. */
  datatype Player = Player(
    id: PlayerId,
    roomCode: Code,
    nickname: string,
    isHost: bool,
    role: PlayerRole,
    isAlive: bool,
    orderNo: Option<int>,
    cardWord: Option<string>,
    hasLeft: bool)

  datatype Round = Round(
    roomCode: Code,
    idx: int,
    state: RoundState,
    accusedPlayerId: Option<PlayerId>)

  /** `decision` holds "SURVIVE" or "ELIMINATE" for a final vote and is absent otherwise. */
  datatype Vote = Vote(
    round: RoundKey,
    voter: PlayerId,
    target: PlayerId,
    isFinalVote: bool,
    decision: Option<string>)

  datatype MessageLog = MessageLog(
    roomCode: Code,
    round: RoundKey,
    player: PlayerId,
    kind: MessageType,
    text: string,
    summary: string)

  /** Column widths of the schema. */
  const CodeLength := 8
  const NicknameLength := 20

  /** Builder default of GameRoom's round counter. */
  const DefaultCurrentRound := 0

  const Eliminate := "ELIMINATE"
  const Survive := "SURVIVE"

  /** A list of ids with no repeats. */
  predicate Distinct(ids: seq<PlayerId>) {
    forall i, j :: 0 <= i < j < |ids| ==> ids[i] != ids[j]
  }

  /** The key under which a vote is unique: (round, voter, isFinalVote). */
  function VoteKeyOf(v: Vote): (RoundKey, PlayerId, bool) {
    (v.round, v.voter, v.isFinalVote)
  }

  /**
   * A player built with only room, nickname, host flag and role set: the
   * builder defaults make it alive, with no order, no word, not left.
   */
  function NewPlayer(id: PlayerId, code: Code, nickname: string, isHost: bool, role: PlayerRole): (p: Player)
    ensures p.id == id && p.roomCode == code && p.nickname == nickname
    ensures p.isHost == isHost && p.role == role
    ensures p.isAlive && !p.hasLeft && p.orderNo == None && p.cardWord == None
  {
    Player(id, code, nickname, isHost, role, true, None, None, false)
  }

  /** A room built without a current round starts at round 0. */
  function NewRoom(code: Code, maxPlayers: int, roundLimit: int, theme: Theme): (r: GameRoom)
    ensures r.code == code && r.maxPlayers == maxPlayers && r.roundLimit == roundLimit
    ensures r.state == LOBBY && r.currentRound == Some(DefaultCurrentRound) && r.theme == theme
  {
    GameRoom(code, maxPlayers, roundLimit, LOBBY, Some(DefaultCurrentRound), theme)
  }

  /** A freshly built round: READY, nobody accused. */
  function NewRound(code: Code, idx: int): (r: Round)
    ensures r.roomCode == code && r.idx == idx
    ensures r.state == READY && r.accusedPlayerId == None
  {
    Round(code, idx, READY, None)
  }
}
