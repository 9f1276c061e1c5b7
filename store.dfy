/**
 * The abstract database the services work on, the outbound message log,
 * and the transaction discipline around each public service operation.
 *
 * Repository lists come back in ascending player id, which is insertion
 * order for identity-generated ids. Broadcasts and personal messages are
 * appended to `events`; a rolled-back transaction restores every table
 * but cannot take back a message already sent.
 */
module Store {
  import opened Wrappers
  import opened Entities

  /** The side announced as winner at game end ("LIAR" or "CITIZENS"). */
  datatype Winner = LiarWins | CitizensWin

  /** The per-player reason attached to a GAME_END message. */
  datatype EndReason = MissionSuccess | MissionFailed | CitizensVictory | CitizensDefeat

  /** The `outcome` field of a VOTE_RESULT broadcast. */
  datatype VoteOutcome =
    | NoVotes
    | AccusedBy(target: PlayerId)
    | NoMajority
    | Eliminated(accused: PlayerId)
    | Survived(accused: PlayerId)

  /** Outbound messages, by message type; payloads are reduced to the fields the model relies on. */
  datatype Event =
    | PlayerJoined(code: Code, player: PlayerId)
    | PlayerLeft(code: Code, player: PlayerId)
    | RoomStateUpdate(code: Code)
    | GameStarted(code: Code)
    | DescriptionUpdate(code: Code, player: PlayerId, text: string)
    | VoteResult(code: Code, outcome: VoteOutcome)
    | FinalDefenseComplete(code: Code, player: PlayerId, text: string)
    | RoundStateChanged(code: Code, state: RoundState)
    | RoundTransition(code: Code, nextRound: int)
    | GameEnd(code: Code, recipient: PlayerId, winner: Winner, reason: EndReason, liar: Option<PlayerId>)
    | GameInterrupted(code: Code, leftPlayer: PlayerId)
    | RoomDeleted(code: Code, host: PlayerId)

  /** The runtime exceptions the services throw, named by their cause. */
  datatype Error =
    | RoomNotFound | PlayerNotFound | VoterNotFound | TargetNotFound
    | DeadCannotSpeak | DeadCannotVote | SelfVote
    | RoundNotFound | NotVotePhase | NotFinalVotePhase | AlreadyVoted
    | NotFinalDefensePhase | NotAccused | NotHost | NotFinalDefenseComplete
    | AccusedNotFound | AccusedCannotVote | DescriptionsIncomplete | RoundNotComplete
    | GameAlreadyStarted | RoomFull | NicknameInUse | NotEnoughPlayers
    | NoThemeAvailable | WrongRoomCode | NullValue | NonUniqueResult
    | CodeDrawsExhausted | ValueTooLong

  datatype Store = Store(
    rooms: map<Code, GameRoom>,
    players: map<PlayerId, Player>,
    nextPlayerId: PlayerId,
    rounds: map<RoundKey, Round>,
    votes: seq<Vote>,
    messages: seq<MessageLog>,
    events: seq<Event>)

  const Empty := Store(map[], map[], 0, map[], [], [], [])

  /** The result of running a service body: the exception it threw, if any, and the state it reached. */
  datatype Step = Step(err: Option<Error>, store: Store)

  function Ok(s: Store): Step { Step(None, s) }
  function Fail(e: Error, s: Store): Step { Step(Some(e), s) }

  /**
   * The end of a transaction that started in `s0`: a normal return keeps
   * what the body did, an exception restores `s0` and keeps only the
   * messages the body had already sent.
   */
  function Commit(s0: Store, st: Step): Store {
    if st.err.None? then st.store else s0.(events := st.store.events)
  }

  function Emit(s: Store, e: Event): Store {
    s.(events := s.events + [e])
  }

  /**
   * Consistency of the tables: keys match rows, foreign keys resolve (a
   * player and a round to their room, a vote and a message to their
   * round), column widths hold.
   */
  ghost predicate Valid(s: Store) {
    (forall c :: c in s.rooms ==> s.rooms[c].code == c && |c| <= CodeLength) &&
    (forall id :: id in s.players ==>
       s.players[id].id == id && id < s.nextPlayerId &&
       s.players[id].roomCode in s.rooms &&
       |s.players[id].nickname| <= NicknameLength) &&
    (forall k :: k in s.rounds ==>
       s.rounds[k].roomCode == k.code && s.rounds[k].idx == k.idx && k.code in s.rooms) &&
    (forall v :: v in s.votes ==> v.round in s.rounds) &&
    (forall m :: m in s.messages ==> m.round in s.rounds) &&
    UniqueVotes(s.votes) &&
    OneActiveHost(s.players)
  }

  /** The unique constraint on (round, voter, isFinalVote). */
  predicate UniqueVotes(vs: seq<Vote>) {
    forall i, j :: 0 <= i < j < |vs| ==> VoteKeyOf(vs[i]) != VoteKeyOf(vs[j])
  }

  /** No room has two players who are both present and host. */
  predicate OneActiveHost(ps: map<PlayerId, Player>) {
    forall a, b ::
      a in ps && b in ps && ActiveHost(ps[a]) && ActiveHost(ps[b]) && ps[a].roomCode == ps[b].roomCode
      ==> a == b
  }

  predicate ActiveHost(p: Player) {
    p.isHost && !p.hasLeft
  }

  /** A refused call restores the tables, so it keeps them consistent. */
  lemma CommitKeepsValid(s: Store, st: Step)
    requires Valid(s) && (st.err.None? ==> Valid(st.store))
    ensures Valid(Commit(s, st))
  {
  }

  /** Sending a message touches no table. */
  lemma EmitKeepsValid(s: Store, e: Event)
    requires Valid(s)
    ensures Valid(Emit(s, e))
  {
  }

  /** The columns a consistency rule looks at: id, room, nickname, host flag and presence. */
  function KeyColumns(p: Player): (PlayerId, Code, string, bool, bool) {
    (p.id, p.roomCode, p.nickname, p.isHost, p.hasLeft)
  }

  /** The same players, each with the same key columns. */
  ghost predicate SameRows(m: map<PlayerId, Player>, r: map<PlayerId, Player>) {
    r.Keys == m.Keys && forall id :: id in m ==> KeyColumns(r[id]) == KeyColumns(m[id])
  }

  /** Rewriting player rows without touching who is who keeps the tables consistent. */
  lemma SameRowsKeepValid(s: Store, ps: map<PlayerId, Player>)
    requires Valid(s) && SameRows(s.players, ps)
    ensures Valid(s.(players := ps))
  {
    var t := s.(players := ps);
    forall a, b | a in ps && b in ps && ActiveHost(ps[a]) && ActiveHost(ps[b]) && ps[a].roomCode == ps[b].roomCode
      ensures a == b
    {
      assert ActiveHost(s.players[a]) && ActiveHost(s.players[b]);
    }
  }

  /** A new READY round of an existing room keeps the tables consistent. */
  lemma AddRoundKeepsValid(s: Store, code: Code, idx: int)
    requires Valid(s) && code in s.rooms
    ensures Valid(s.(rounds := s.rounds[RoundKey(code, idx) := NewRound(code, idx)]))
  {
  }

  /** Changing a room's state or round number keeps the tables consistent. */
  lemma RoomUpdateKeepsValid(s: Store, code: Code, room: GameRoom)
    requires Valid(s) && code in s.rooms && room.code == code
    ensures Valid(s.(rooms := s.rooms[code := room]))
  {
  }

  /** Changing a round's state or accused keeps the tables consistent. */
  lemma RoundUpdateKeepsValid(s: Store, key: RoundKey, round: Round)
    requires Valid(s) && key in s.rounds && round.roomCode == key.code && round.idx == key.idx
    ensures Valid(s.(rounds := s.rounds[key := round]))
  {
  }

  /** Storing a vote that keeps the unique constraint keeps the tables consistent. */
  lemma VoteKeepsValid(s: Store, v: Vote)
    requires Valid(s) && v.round in s.rounds && UniqueVotes(s.votes + [v])
    ensures Valid(s.(votes := s.votes + [v]))
  {
  }

  /** The database as objects the services update in place. */
  class Db {
    var rooms: map<Code, GameRoom>
    var players: map<PlayerId, Player>
    var nextPlayerId: PlayerId
    var rounds: map<RoundKey, Round>
    var votes: seq<Vote>
    var messages: seq<MessageLog>
    var events: seq<Event>

    constructor ()
      ensures State() == Empty
    {
      rooms, players, nextPlayerId := map[], map[], 0;
      rounds, votes, messages, events := map[], [], [], [];
    }

    function State(): Store
      reads this
    {
      Store(rooms, players, nextPlayerId, rounds, votes, messages, events)
    }

    /** Sends one message. */
    method Send(e: Event)
      modifies this
      ensures State() == Emit(old(State()), e)
    {
      events := events + [e];
    }

    /** Rolls every table back to `s0`; messages already sent stay sent. */
    method Rollback(s0: Store)
      modifies this
      ensures State() == s0.(events := old(events))
    {
      rooms, players, nextPlayerId := s0.rooms, s0.players, s0.nextPlayerId;
      rounds, votes, messages := s0.rounds, s0.votes, s0.messages;
    }
  }
}
