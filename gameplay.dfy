/**
 * The round flow of GamePlayService as functions over the store: each
 * public operation is a body that either throws (an `Error`) or reaches a
 * new store, and the transaction around it (`Commit`). The private
 * helpers the bodies call are functions of their own, named after them.
 *
 * The store is read with the changes made earlier in the same call
 * already visible, as the persistence context flushes before each query.
 */
module GamePlay {
  import opened Wrappers
  import opened Entities
  import opened Store
  import opened PlayerRepository
  import opened VoteRepository
  import opened Roles
  import opened Tally

  const SummaryLimit := 50
  const SummaryKept := 47

  /** `generateSummary`: short text unchanged, long text cut to 47 characters and an ellipsis. */
  function GenerateSummary(text: string): (r: string)
    ensures |r| <= SummaryLimit
    ensures |text| <= SummaryLimit ==> r == text
    ensures |text| > SummaryLimit ==> |r| == SummaryLimit && r[..SummaryKept] == text[..SummaryKept] && r[SummaryKept..] == "..."
  {
    if |text| <= SummaryLimit then text else text[..SummaryKept] + "..."
  }

  /**
   * The reason a GAME_END message gives a player: the two liar reasons go
   * to the liar, and the two success reasons to the winning side.
   */
  function Reason(role: PlayerRole, winner: Winner): (r: EndReason)
    ensures (r == MissionSuccess || r == MissionFailed) <==> role == LIAR
    ensures (r == MissionSuccess || r == CitizensVictory) <==> (role == LIAR <==> winner == LiarWins)
  {
    if role == LIAR then
      if winner == LiarWins then MissionSuccess else MissionFailed
    else
      if winner == LiarWins then CitizensDefeat else CitizensVictory
  }

  /** The first listed player whose role is LIAR, if any. */
  function FirstLiar(s: Store, ids: seq<PlayerId>): (r: Option<PlayerId>)
    requires forall id :: id in ids ==> id in s.players
    ensures r.None? <==> forall id :: id in ids ==> s.players[id].role != LIAR
    ensures r.Some? ==> exists k :: 0 <= k < |ids| && ids[k] == r.value && s.players[r.value].role == LIAR &&
                                   forall j :: 0 <= j < k ==> s.players[ids[j]].role != LIAR
  {
    if ids == [] then None
    else if s.players[ids[0]].role == LIAR then Some(ids[0])
    else
      var r := FirstLiar(s, ids[1..]);
      assert forall id :: id in ids[1..] ==> id in ids;
      if r.None? then None
      else
        assert exists k :: 0 <= k < |ids| - 1 && ids[1..][k] == r.value && s.players[r.value].role == LIAR &&
                           forall j :: 0 <= j < k ==> s.players[ids[1..][j]].role != LIAR;
        var k :| 0 <= k < |ids| - 1 && ids[1..][k] == r.value && s.players[r.value].role == LIAR &&
                 forall j :: 0 <= j < k ==> s.players[ids[1..][j]].role != LIAR;
        assert ids[k + 1] == r.value;
        assert forall j :: 1 <= j < k + 1 ==> ids[j] == ids[1..][j - 1];
        r
  }

  /** One GAME_END personal message per listed player, in list order. */
  function GameEndMessages(ps: map<PlayerId, Player>, code: Code, ids: seq<PlayerId>, winner: Winner, liar: Option<PlayerId>): (es: seq<Event>)
    requires forall id :: id in ids ==> id in ps
    ensures |es| == |ids|
    ensures forall i :: 0 <= i < |ids| ==>
      es[i] == GameEnd(code, ids[i], winner, Reason(ps[ids[i]].role, winner), liar)
  {
    if ids == [] then []
    else
      var rest := GameEndMessages(ps, code, ids[1..], winner, liar);
      assert forall i :: 1 <= i < |ids| ==> ids[i] == ids[1..][i - 1];
      [GameEnd(code, ids[0], winner, Reason(ps[ids[0]].role, winner), liar)] + rest
  }

  /** The liar named in GAME_END: the first present LIAR, else the key player. */
  function NamedLiar(s: Store, code: Code, keyPlayer: Option<PlayerId>): Option<PlayerId> {
    var liar := FirstLiar(s, Active(s, code));
    if liar.Some? then liar else keyPlayer
  }

  /** `endGameWithResult`: the room ends and every present player gets a GAME_END message. */
  function EndGameWithResult(s: Store, code: Code, winner: Winner, keyPlayer: Option<PlayerId>): Store
    requires code in s.rooms
  {
    var s1 := s.(rooms := s.rooms[code := s.rooms[code].(state := RoomState.END)]);
    s.(rooms := s1.rooms,
       events := s.events + GameEndMessages(s.players, code, Active(s, code), winner, NamedLiar(s, code, keyPlayer)))
  }

  /** The room exists and has a current round number. */
  predicate InRound(s: Store, code: Code) {
    code in s.rooms && s.rooms[code].currentRound.Some?
  }

  /** `findByRoomCodeAndIdx(code, room.currentRound)`. */
  function CurrentKey(s: Store, code: Code): (r: Option<RoundKey>)
    requires code in s.rooms
    ensures r.Some? <==> InRound(s, code) && RoundKey(code, s.rooms[code].currentRound.value) in s.rounds
    ensures r.Some? ==> r.value == RoundKey(code, s.rooms[code].currentRound.value)
  {
    var room := s.rooms[code];
    if room.currentRound.Some? && RoundKey(code, room.currentRound.value) in s.rounds
    then Some(RoundKey(code, room.currentRound.value))
    else None
  }

  /**
   * `startNewRound`: nothing if the round already exists; otherwise the
   * alive players are dealt anew and a READY round is created.
   */
  function StartNewRound(s: Store, code: Code, idx: int, d: RoundDraw): Store
    requires code in s.rooms
  {
    var key := RoundKey(code, idx);
    if key in s.rounds then s
    else
      var alive := Alive(s, code);
      var s1 := s.(players := Reassign(s.players, alive, s.rooms[code].theme, d),
                   rounds := s.rounds[key := NewRound(code, idx)]);
      Emit(s1, RoundStateChanged(code, RoundState.READY))
  }

  /**
   * `proceedToNextRound`: at the round limit the liar wins; otherwise
   * the round number goes up by one and the next round is started.
   */
  function ProceedToNextRound(s: Store, code: Code, d: RoundDraw): Store
    requires InRound(s, code)
  {
    var room := s.rooms[code];
    var cur := room.currentRound.value;
    if cur >= room.roundLimit then
      EndGameWithResult(s, code, LiarWins, FirstLiar(s, Active(s, code)))
    else
      var s1 := s.(rooms := s.rooms[code := room.(currentRound := Some(cur + 1))]);
      StartNewRound(Emit(s1, RoundTransition(code, cur + 1)), code, cur + 1, d)
  }

  /** `checkRemainingPlayersAndProceed`: fewer than three alive and the liar wins. */
  function CheckRemainingPlayersAndProceed(s: Store, code: Code, d: RoundDraw): Store
    requires InRound(s, code)
  {
    var alive := Alive(s, code);
    if |alive| < 3 then EndGameWithResult(s, code, LiarWins, FirstLiar(s, alive))
    else ProceedToNextRound(s, code, d)
  }

  /**
   * `completeCurrentRound`: the round ends; below the limit the game
   * goes on, at the limit the liar wins, named by a single-result query
   * that fails when the room has two liars.
   */
  function CompleteCurrentRound(s: Store, code: Code, key: RoundKey, d: RoundDraw): Step
    requires InRound(s, code) && key in s.rounds
  {
    var s1 := s.(rounds := s.rounds[key := s.rounds[key].(state := RoundState.END)]);
    var room := s1.rooms[code];
    if room.currentRound.value < room.roundLimit then Ok(ProceedToNextRound(s1, code, d))
    else
      match FindByRole(s1, code, LIAR)
      case NotUnique => Fail(NonUniqueResult, s1)
      case Missing => Ok(EndGameWithResult(s1, code, LiarWins, None))
      case Found(liar) => Ok(EndGameWithResult(s1, code, LiarWins, Some(liar)))
  }

  /** The accused of a round, as `findById(accusedPlayerId)` resolves it. */
  function ResolveAccused(s: Store, key: RoundKey, ifMissing: Error): (r: Resolved)
    requires key in s.rounds
    ensures r.Resolved? <==> s.rounds[key].accusedPlayerId.Some? && s.rounds[key].accusedPlayerId.value in s.players
    ensures r.Resolved? ==> Some(r.id) == s.rounds[key].accusedPlayerId
    ensures r.Unresolved? && s.rounds[key].accusedPlayerId.Some? ==> r.error == ifMissing
  {
    var acc := s.rounds[key].accusedPlayerId;
    if acc.None? then Unresolved(NullValue)
    else if acc.value !in s.players then Unresolved(ifMissing)
    else Resolved(acc.value)
  }

  datatype Resolved = Resolved(id: PlayerId) | Unresolved(error: Error)

  function Kill(s: Store, id: PlayerId): Store
    requires id in s.players
  {
    s.(players := s.players[id := s.players[id].(isAlive := false)])
  }

  /**
   * `processFinalVoteResults`: the accused dies iff ELIMINATE outnumbers
   * SURVIVE; a dead liar ends the game for the citizens at once.
   */
  function ProcessFinalVoteResults(s: Store, code: Code, key: RoundKey, d: RoundDraw): Step
    requires InRound(s, code) && key in s.rounds
  {
    var ballot := Ballot(s.votes, key, true);
    var eliminate := CountDecision(ballot, Eliminate);
    var survive := CountDecision(ballot, Survive);
    match ResolveAccused(s, key, AccusedNotFound)
    case Unresolved(e) => Fail(e, s)
    case Resolved(acc) =>
      if eliminate > survive then
        var s1 := Kill(s, acc);
        if s.players[acc].role == LIAR then Ok(EndGameWithResult(s1, code, CitizensWin, Some(acc)))
        else CompleteCurrentRound(Emit(s1, VoteResult(code, Eliminated(acc))), code, key, d)
      else CompleteCurrentRound(Emit(s, VoteResult(code, Survived(acc))), code, key, d)
  }

  /**
   * `processInitialVoteResult`: an accusation moves the round to
   * FINAL_DEFENSE; no votes or no accusation go on to the next round,
   * leaving the old round as it was.
   */
  function ProcessInitialVoteResult(s: Store, code: Code, key: RoundKey, d: RoundDraw): Store
    requires InRound(s, code) && key in s.rounds
  {
    var outcome := InitialOutcome(CountByTarget(Ballot(s.votes, key, false)), |Alive(s, code)|);
    match outcome
    case NoVotes => ProceedToNextRound(Emit(s, VoteResult(code, NoVotes)), code, d)
    case AccusedBy(t) =>
      var accused := s.rounds[key].(accusedPlayerId := Some(t), state := RoundState.FINAL_DEFENSE);
      Emit(s.(rounds := s.rounds[key := accused]), VoteResult(code, outcome))
    case _ => Emit(ProceedToNextRound(s, code, d), VoteResult(code, outcome))
  }

  /**
   * `processJudgment`: with no final votes the accused survives; otherwise
   * the accused dies when ELIMINATE reaches a majority of the alive
   * players other than the accused. Only the survival path ends the round.
   */
  function ProcessJudgment(s: Store, code: Code, key: RoundKey, d: RoundDraw): Step
    requires InRound(s, code) && key in s.rounds
  {
    match ResolveAccused(s, key, AccusedNotFound)
    case Unresolved(e) => Fail(e, s)
    case Resolved(acc) =>
      var ballot := Ballot(s.votes, key, true);
      if ballot == [] then Ok(ProceedToNextRound(Emit(s, VoteResult(code, Survived(acc))), code, d))
      else if CountDecision(ballot, Eliminate) >= RequiredToEliminate(|Alive(s, code)|) then
        var s1 := Emit(Kill(s, acc), VoteResult(code, Eliminated(acc)));
        if s.players[acc].role == LIAR then Ok(EndGameWithResult(s1, code, CitizensWin, Some(acc)))
        else Ok(CheckRemainingPlayersAndProceed(s1, code, d))
      else
        var s2 := ProceedToNextRound(Emit(s, VoteResult(code, Survived(acc))), code, d);
        Ok(s2.(rounds := s2.rounds[key := s.rounds[key].(state := RoundState.END)]))
  }

  /** `checkVoteCompletion`: once the ballot has as many votes as alive players, it is judged. */
  function CheckVoteCompletion(s: Store, code: Code, key: RoundKey, isFinal: bool, d: RoundDraw): Step
    requires InRound(s, code) && key in s.rounds
  {
    if CountBallot(s.votes, key, isFinal) >= |Alive(s, code)| then
      if isFinal then ProcessJudgment(s, code, key, d) else Ok(ProcessInitialVoteResult(s, code, key, d))
    else Ok(s)
  }

  /** `validateVoteState`: either kind of vote needs the round in VOTE. */
  function ValidateVoteState(round: Round, isFinal: bool): (r: Option<Error>)
    ensures r.None? <==> round.state == VOTE
    ensures r.Some? ==> r.value == if isFinal then NotFinalVotePhase else NotVotePhase
  {
    if round.state != VOTE then Some(if isFinal then NotFinalVotePhase else NotVotePhase) else None
  }

  /** The body of `submitVote`. */
  function SubmitVoteBody(s: Store, code: Code, voter: PlayerId, target: PlayerId, isFinal: bool, d: RoundDraw): Step {
    if code !in s.rooms then Fail(RoomNotFound, s)
    else if voter !in s.players then Fail(VoterNotFound, s)
    else if target !in s.players then Fail(TargetNotFound, s)
    else if !s.players[voter].isAlive then Fail(DeadCannotVote, s)
    else if voter == target then Fail(SelfVote, s)
    else
      match CurrentKey(s, code)
      case None => Fail(RoundNotFound, s)
      case Some(key) =>
        var phase := ValidateVoteState(s.rounds[key], isFinal);
        if phase.Some? then Fail(phase.value, s)
        else if HasVoted(s.votes, key, voter, isFinal) then Fail(AlreadyVoted, s)
        else
          var s1 := s.(votes := s.votes + [Vote(key, voter, target, isFinal, None)]);
          CheckVoteCompletion(s1, code, key, isFinal, d)
  }

  function SubmitVote(s: Store, code: Code, voter: PlayerId, target: PlayerId, isFinal: bool, d: RoundDraw): Store {
    Commit(s, SubmitVoteBody(s, code, voter, target, isFinal, d))
  }

  /** The body of `submitDescription`: any phase, any number of times. */
  function SubmitDescriptionBody(s: Store, code: Code, player: PlayerId, text: string): Step {
    if code !in s.rooms then Fail(RoomNotFound, s)
    else if player !in s.players then Fail(PlayerNotFound, s)
    else if !s.players[player].isAlive then Fail(DeadCannotSpeak, s)
    else
      match CurrentKey(s, code)
      case None => Fail(RoundNotFound, s)
      case Some(key) =>
        var log := MessageLog(code, key, player, MessageType.DESC, text, GenerateSummary(text));
        Ok(Emit(s.(messages := s.messages + [log]), DescriptionUpdate(code, player, text)))
  }

  function SubmitDescription(s: Store, code: Code, player: PlayerId, text: string): Store {
    Commit(s, SubmitDescriptionBody(s, code, player, text))
  }

  /** The body of `submitFinalDefense`: only the accused, only in FINAL_DEFENSE. */
  function SubmitFinalDefenseBody(s: Store, code: Code, player: PlayerId, text: string): Step {
    if code !in s.rooms then Fail(RoomNotFound, s)
    else if player !in s.players then Fail(PlayerNotFound, s)
    else
      match CurrentKey(s, code)
      case None => Fail(RoundNotFound, s)
      case Some(key) =>
        var round := s.rounds[key];
        if round.state != RoundState.FINAL_DEFENSE then Fail(NotFinalDefensePhase, s)
        else if round.accusedPlayerId != Some(player) then Fail(NotAccused, s)
        else
          var log := MessageLog(code, key, player, MessageType.FINAL_DEFENSE, text, GenerateSummary(text));
          var s1 := s.(messages := s.messages + [log],
                       rounds := s.rounds[key := round.(state := FINAL_DEFENSE_COMPLETE)]);
          Ok(Emit(s1, FinalDefenseComplete(code, player, text)))
  }

  function SubmitFinalDefense(s: Store, code: Code, player: PlayerId, text: string): Store {
    Commit(s, SubmitFinalDefenseBody(s, code, player, text))
  }

  /**
   * The body of `startFinalVoting`: a host, in FINAL_DEFENSE_COMPLETE.
   * The accused is read only for the broadcast, after the round has
   * moved on, and a missing one fails there.
   */
  function StartFinalVotingBody(s: Store, code: Code, host: PlayerId): Step {
    if code !in s.rooms then Fail(RoomNotFound, s)
    else if host !in s.players then Fail(PlayerNotFound, s)
    else if !s.players[host].isHost then Fail(NotHost, s)
    else
      match CurrentKey(s, code)
      case None => Fail(RoundNotFound, s)
      case Some(key) =>
        if s.rounds[key].state != FINAL_DEFENSE_COMPLETE then Fail(NotFinalDefenseComplete, s)
        else
          var s1 := s.(rounds := s.rounds[key := s.rounds[key].(state := FINAL_VOTING)]);
          match ResolveAccused(s1, key, NullValue)
          case Unresolved(e) => Fail(e, s1)
          case Resolved(_) => Ok(Emit(s1, RoundStateChanged(code, FINAL_VOTING)))
  }

  function StartFinalVoting(s: Store, code: Code, host: PlayerId): Store {
    Commit(s, StartFinalVotingBody(s, code, host))
  }

  /** The listed ids other than `x`. */
  function Without(ids: seq<PlayerId>, x: PlayerId): (r: seq<PlayerId>)
    ensures forall y :: y in r <==> y in ids && y != x
    ensures |r| <= |ids|
  {
    if ids == [] then []
    else if ids[0] == x then Without(ids[1..], x)
    else [ids[0]] + Without(ids[1..], x)
  }

  /** The body of `submitFinalVote`. */
  function SubmitFinalVoteBody(s: Store, code: Code, voter: PlayerId, decision: Option<string>, d: RoundDraw): Step {
    if code !in s.rooms then Fail(RoomNotFound, s)
    else if voter !in s.players then Fail(PlayerNotFound, s)
    else
      match CurrentKey(s, code)
      case None => Fail(RoundNotFound, s)
      case Some(key) =>
        var round := s.rounds[key];
        if round.state != FINAL_VOTING then Fail(NotFinalVotePhase, s)
        else if !s.players[voter].isAlive then Fail(DeadCannotVote, s)
        else if round.accusedPlayerId == Some(voter) then Fail(AccusedCannotVote, s)
        else if HasVoted(s.votes, key, voter, true) then Fail(AlreadyVoted, s)
        else
          match ResolveAccused(s, key, AccusedNotFound)
          case Unresolved(e) => Fail(e, s)
          case Resolved(acc) =>
            var s1 := s.(votes := s.votes + [Vote(key, voter, acc, true, decision)]);
            var eligible := |Without(Select(s1, WithAliveFlag(code, true)), acc)|;
            if CountBallot(s1.votes, key, true) >= eligible then ProcessFinalVoteResults(s1, code, key, d)
            else Ok(s1)
  }

  function SubmitFinalVote(s: Store, code: Code, voter: PlayerId, decision: Option<string>, d: RoundDraw): Store {
    Commit(s, SubmitFinalVoteBody(s, code, voter, decision, d))
  }

  /** The body of `startVoting`: DESC_COMPLETE moves to VOTE. */
  function StartVotingBody(s: Store, code: Code): Step {
    if code !in s.rooms then Fail(RoomNotFound, s)
    else
      match CurrentKey(s, code)
      case None => Fail(RoundNotFound, s)
      case Some(key) =>
        if s.rounds[key].state != DESC_COMPLETE then Fail(DescriptionsIncomplete, s)
        else Ok(Emit(s.(rounds := s.rounds[key := s.rounds[key].(state := VOTE)]), RoundStateChanged(code, VOTE)))
  }

  function StartVoting(s: Store, code: Code): Store {
    Commit(s, StartVotingBody(s, code))
  }

  /** The body of `proceedNextRound`: a host, once the round has ended. */
  function ProceedNextRoundBody(s: Store, code: Code, host: PlayerId, d: RoundDraw): Step {
    if code !in s.rooms then Fail(RoomNotFound, s)
    else if host !in s.players then Fail(PlayerNotFound, s)
    else if !s.players[host].isHost then Fail(NotHost, s)
    else
      match CurrentKey(s, code)
      case None => Fail(RoundNotFound, s)
      case Some(key) =>
        if s.rounds[key].state != RoundState.END then Fail(RoundNotComplete, s)
        else Ok(ProceedToNextRound(s, code, d))
  }

  function ProceedNextRound(s: Store, code: Code, host: PlayerId, d: RoundDraw): Store {
    Commit(s, ProceedNextRoundBody(s, code, host, d))
  }
}
