/**
 * GamePlayService as methods on the database object: each updates the
 * tables in place and sends its messages in the order the service does,
 * and each is proved to reach exactly the store its function in
 * GamePlay describes. A public operation that throws rolls the tables
 * back to where the call started.
 */
module GamePlayService {
  import opened Wrappers
  import opened Entities
  import opened Store
  import opened PlayerRepository
  import opened VoteRepository
  import opened Roles
  import opened Tally
  import opened Dealing
  import GamePlay

  /** `reassignRolesAndWords`: everyone a citizen, the first of the shuffle the liar, then a new speaking order. */
  method ReassignRolesAndWords(db: Db, alive: seq<PlayerId>, theme: Theme, d: RoundDraw)
    requires forall id :: id in alive ==> id in db.players
    requires Distinct(alive)
    modifies db
    ensures db.State() == old(db.State()).(players := Reassign(old(db.players), alive, theme, d))
  {
    var order := ShuffleList(alive, d.roleDraws);
    assert forall id :: id in order ==> id in multiset(alive);
    var word := CitizenWord(theme, d);
    MakeCitizensIn(db, order, word);
    if |order| > 0 {
      MakeLiarIn(db, order[0]);
    }
    var spoken := ShuffleList(order, d.orderDraws);
    assert forall id :: id in spoken ==> id in multiset(order);
    NumberIn(db, spoken);
  }

  /** `startNewRound`: an existing round is left alone; otherwise deal and create a READY round. */
  method StartNewRound(db: Db, code: Code, idx: int, d: RoundDraw)
    requires code in db.rooms
    modifies db
    ensures db.State() == GamePlay.StartNewRound(old(db.State()), code, idx, d)
  {
    var key := RoundKey(code, idx);
    if key in db.rounds {
      return;
    }
    var alive := Alive(db.State(), code);
    ReassignRolesAndWords(db, alive, db.rooms[code].theme, d);
    db.rounds := db.rounds[key := NewRound(code, idx)];
    db.Send(RoundStateChanged(code, RoundState.READY));
  }

  /** `endGameWithResult`: the room ends, then one personal GAME_END per present player. */
  method EndGameWithResult(db: Db, code: Code, winner: Winner, keyPlayer: Option<PlayerId>)
    requires code in db.rooms
    modifies db
    ensures db.State() == GamePlay.EndGameWithResult(old(db.State()), code, winner, keyPlayer)
  {
    var s := db.State();
    var players := Active(s, code);
    var liar := GamePlay.NamedLiar(s, code, keyPlayer);
    db.rooms := db.rooms[code := db.rooms[code].(state := RoomState.END)];
    SendGameEnds(db, code, players, winner, liar);
  }

  /** The loop of `endGameWithResult`: one GAME_END per listed player, in list order. */
  method SendGameEnds(db: Db, code: Code, players: seq<PlayerId>, winner: Winner, liar: Option<PlayerId>)
    requires forall id :: id in players ==> id in db.players
    modifies db`events
    ensures db.events == old(db.events) + GamePlay.GameEndMessages(db.players, code, players, winner, liar)
  {
    var i := 0;
    while i < |players|
      invariant 0 <= i <= |players|
      invariant db.events == old(db.events) + GamePlay.GameEndMessages(db.players, code, players[..i], winner, liar)
    {
      var p := players[i];
      var reason := GamePlay.Reason(db.players[p].role, winner);
      assert players[..i + 1] == players[..i] + [p];
      GameEndMessagesSnoc(db.players, code, players[..i], p, winner, liar);
      db.events := db.events + [GameEnd(code, p, winner, reason, liar)];
      i := i + 1;
    }
    assert players[..i] == players;
  }

  /** The messages for a list with one more player at its end. */
  lemma GameEndMessagesSnoc(ps: map<PlayerId, Player>, code: Code, ids: seq<PlayerId>, p: PlayerId, winner: Winner, liar: Option<PlayerId>)
    requires forall id :: id in ids ==> id in ps
    requires p in ps
    ensures GamePlay.GameEndMessages(ps, code, ids + [p], winner, liar) ==
      GamePlay.GameEndMessages(ps, code, ids, winner, liar) + [GameEnd(code, p, winner, GamePlay.Reason(ps[p].role, winner), liar)]
  {
    var l := GamePlay.GameEndMessages(ps, code, ids + [p], winner, liar);
    var r := GamePlay.GameEndMessages(ps, code, ids, winner, liar) + [GameEnd(code, p, winner, GamePlay.Reason(ps[p].role, winner), liar)];
    assert |l| == |r|;
    forall i | 0 <= i < |l| ensures l[i] == r[i] {
      if i < |ids| {
        assert (ids + [p])[i] == ids[i];
      }
    }
  }

  /** `proceedToNextRound`: at the limit the liar wins; otherwise the next round starts. */
  method ProceedToNextRound(db: Db, code: Code, d: RoundDraw)
    requires GamePlay.InRound(db.State(), code)
    modifies db
    ensures db.State() == GamePlay.ProceedToNextRound(old(db.State()), code, d)
  {
    var room := db.rooms[code];
    var cur := room.currentRound.value;
    if cur >= room.roundLimit {
      var s := db.State();
      var liar := GamePlay.FirstLiar(s, Active(s, code));
      EndGameWithResult(db, code, LiarWins, liar);
    } else {
      db.rooms := db.rooms[code := room.(currentRound := Some(cur + 1))];
      db.Send(RoundTransition(code, cur + 1));
      StartNewRound(db, code, cur + 1, d);
    }
  }

  /** `checkRemainingPlayersAndProceed`. */
  method CheckRemainingPlayersAndProceed(db: Db, code: Code, d: RoundDraw)
    requires GamePlay.InRound(db.State(), code)
    modifies db
    ensures db.State() == GamePlay.CheckRemainingPlayersAndProceed(old(db.State()), code, d)
  {
    var s := db.State();
    var alive := Alive(s, code);
    if |alive| < 3 {
      EndGameWithResult(db, code, LiarWins, GamePlay.FirstLiar(s, alive));
    } else {
      ProceedToNextRound(db, code, d);
    }
  }

  /** `completeCurrentRound`; throws when the single-liar query finds two. */
  method CompleteCurrentRound(db: Db, code: Code, key: RoundKey, d: RoundDraw) returns (err: Option<Error>)
    requires GamePlay.InRound(db.State(), code) && key in db.rounds
    modifies db
    ensures Step(err, db.State()) == GamePlay.CompleteCurrentRound(old(db.State()), code, key, d)
  {
    err := None;
    db.rounds := db.rounds[key := db.rounds[key].(state := RoundState.END)];
    var room := db.rooms[code];
    if room.currentRound.value < room.roundLimit {
      ProceedToNextRound(db, code, d);
    } else {
      match FindByRole(db.State(), code, LIAR)
      case NotUnique => err := Some(NonUniqueResult);
      case Missing => EndGameWithResult(db, code, LiarWins, None);
      case Found(liar) => EndGameWithResult(db, code, LiarWins, Some(liar));
    }
  }

  /** `processFinalVoteResults`. */
  method ProcessFinalVoteResults(db: Db, code: Code, key: RoundKey, d: RoundDraw) returns (err: Option<Error>)
    requires GamePlay.InRound(db.State(), code) && key in db.rounds
    modifies db
    ensures Step(err, db.State()) == GamePlay.ProcessFinalVoteResults(old(db.State()), code, key, d)
  {
    var ballot := Ballot(db.votes, key, true);
    var eliminate := CountDecision(ballot, Eliminate);
    var survive := CountDecision(ballot, Survive);
    match GamePlay.ResolveAccused(db.State(), key, AccusedNotFound)
    case Unresolved(e) =>
      err := Some(e);
    case Resolved(acc) =>
      if eliminate > survive {
        var role := db.players[acc].role;
        db.players := db.players[acc := db.players[acc].(isAlive := false)];
        if role == LIAR {
          EndGameWithResult(db, code, CitizensWin, Some(acc));
          err := None;
          return;
        }
        db.Send(VoteResult(code, Eliminated(acc)));
      } else {
        db.Send(VoteResult(code, Survived(acc)));
      }
      err := CompleteCurrentRound(db, code, key, d);
  }

  /** `processInitialVoteResult`. */
  method ProcessInitialVoteResult(db: Db, code: Code, key: RoundKey, d: RoundDraw)
    requires GamePlay.InRound(db.State(), code) && key in db.rounds
    modifies db
    ensures db.State() == GamePlay.ProcessInitialVoteResult(old(db.State()), code, key, d)
  {
    var s := db.State();
    var outcome := InitialOutcome(CountByTarget(Ballot(s.votes, key, false)), |Alive(s, code)|);
    if outcome.NoVotes? {
      db.Send(VoteResult(code, NoVotes));
      ProceedToNextRound(db, code, d);
    } else if outcome.AccusedBy? {
      db.rounds := db.rounds[key := db.rounds[key].(accusedPlayerId := Some(outcome.target), state := RoundState.FINAL_DEFENSE)];
      db.Send(VoteResult(code, outcome));
    } else {
      ProceedToNextRound(db, code, d);
      db.Send(VoteResult(code, outcome));
    }
  }

  /** `processJudgment`: the decisions are tallied by a loop over the final ballot. */
  method ProcessJudgment(db: Db, code: Code, key: RoundKey, d: RoundDraw) returns (err: Option<Error>)
    requires GamePlay.InRound(db.State(), code) && key in db.rounds
    modifies db
    ensures Step(err, db.State()) == GamePlay.ProcessJudgment(old(db.State()), code, key, d)
  {
    err := None;
    var s := db.State();
    match GamePlay.ResolveAccused(s, key, AccusedNotFound)
    case Unresolved(e) =>
      err := Some(e);
    case Resolved(acc) =>
      var ballot := Ballot(db.votes, key, true);
      var eliminate, survive := TallyDecisions(ballot);
      if ballot == [] {
        db.Send(VoteResult(code, Survived(acc)));
        ProceedToNextRound(db, code, d);
        return;
      }
      var alive := Alive(s, code);
      if eliminate >= RequiredToEliminate(|alive|) {
        db.players := db.players[acc := db.players[acc].(isAlive := false)];
        db.Send(VoteResult(code, Eliminated(acc)));
        if s.players[acc].role == LIAR {
          EndGameWithResult(db, code, CitizensWin, Some(acc));
        } else {
          CheckRemainingPlayersAndProceed(db, code, d);
        }
        return;
      }
      db.Send(VoteResult(code, Survived(acc)));
      ProceedToNextRound(db, code, d);
      db.rounds := db.rounds[key := s.rounds[key].(state := RoundState.END)];
  }

  /** `checkVoteCompletion`. */
  method CheckVoteCompletion(db: Db, code: Code, key: RoundKey, isFinal: bool, d: RoundDraw) returns (err: Option<Error>)
    requires GamePlay.InRound(db.State(), code) && key in db.rounds
    modifies db
    ensures Step(err, db.State()) == GamePlay.CheckVoteCompletion(old(db.State()), code, key, isFinal, d)
  {
    err := None;
    if CountBallot(db.votes, key, isFinal) >= |Alive(db.State(), code)| {
      if isFinal {
        err := ProcessJudgment(db, code, key, d);
      } else {
        ProcessInitialVoteResult(db, code, key, d);
      }
    }
  }

  /** `submitVote`, as one transaction. */
  method SubmitVote(db: Db, code: Code, voter: PlayerId, target: PlayerId, isFinal: bool, d: RoundDraw)
    returns (err: Option<Error>)
    modifies db
    ensures err == GamePlay.SubmitVoteBody(old(db.State()), code, voter, target, isFinal, d).err
    ensures db.State() == GamePlay.SubmitVote(old(db.State()), code, voter, target, isFinal, d)
  {
    var s0 := db.State();
    if code !in db.rooms { return Some(RoomNotFound); }
    if voter !in db.players { return Some(VoterNotFound); }
    if target !in db.players { return Some(TargetNotFound); }
    if !db.players[voter].isAlive { return Some(DeadCannotVote); }
    if voter == target { return Some(SelfVote); }
    var current := GamePlay.CurrentKey(s0, code);
    if current.None? { return Some(RoundNotFound); }
    var key := current.value;
    var phase := GamePlay.ValidateVoteState(db.rounds[key], isFinal);
    if phase.Some? { return phase; }
    if HasVoted(db.votes, key, voter, isFinal) { return Some(AlreadyVoted); }
    db.votes := db.votes + [Vote(key, voter, target, isFinal, None)];
    err := CheckVoteCompletion(db, code, key, isFinal, d);
    if err.Some? {
      db.Rollback(s0);
    }
  }

  /** `submitDescription`, as one transaction. */
  method SubmitDescription(db: Db, code: Code, player: PlayerId, text: string) returns (err: Option<Error>)
    modifies db
    ensures err == GamePlay.SubmitDescriptionBody(old(db.State()), code, player, text).err
    ensures db.State() == GamePlay.SubmitDescription(old(db.State()), code, player, text)
  {
    var s0 := db.State();
    if code !in db.rooms { return Some(RoomNotFound); }
    if player !in db.players { return Some(PlayerNotFound); }
    if !db.players[player].isAlive { return Some(DeadCannotSpeak); }
    var current := GamePlay.CurrentKey(s0, code);
    if current.None? { return Some(RoundNotFound); }
    var log := MessageLog(code, current.value, player, MessageType.DESC, text, GamePlay.GenerateSummary(text));
    db.messages := db.messages + [log];
    db.Send(DescriptionUpdate(code, player, text));
    err := None;
  }

  /** `submitFinalDefense`, as one transaction. */
  method SubmitFinalDefense(db: Db, code: Code, player: PlayerId, text: string) returns (err: Option<Error>)
    modifies db
    ensures err == GamePlay.SubmitFinalDefenseBody(old(db.State()), code, player, text).err
    ensures db.State() == GamePlay.SubmitFinalDefense(old(db.State()), code, player, text)
  {
    var s0 := db.State();
    if code !in db.rooms { return Some(RoomNotFound); }
    if player !in db.players { return Some(PlayerNotFound); }
    var current := GamePlay.CurrentKey(s0, code);
    if current.None? { return Some(RoundNotFound); }
    var key := current.value;
    var round := db.rounds[key];
    if round.state != RoundState.FINAL_DEFENSE { return Some(NotFinalDefensePhase); }
    if round.accusedPlayerId != Some(player) { return Some(NotAccused); }
    var log := MessageLog(code, key, player, MessageType.FINAL_DEFENSE, text, GamePlay.GenerateSummary(text));
    db.messages := db.messages + [log];
    db.rounds := db.rounds[key := round.(state := FINAL_DEFENSE_COMPLETE)];
    db.Send(FinalDefenseComplete(code, player, text));
    err := None;
  }

  /** `startFinalVoting`, as one transaction; a missing accused undoes the state change. */
  method StartFinalVoting(db: Db, code: Code, host: PlayerId) returns (err: Option<Error>)
    modifies db
    ensures err == GamePlay.StartFinalVotingBody(old(db.State()), code, host).err
    ensures db.State() == GamePlay.StartFinalVoting(old(db.State()), code, host)
  {
    var s0 := db.State();
    if code !in db.rooms { return Some(RoomNotFound); }
    if host !in db.players { return Some(PlayerNotFound); }
    if !db.players[host].isHost { return Some(NotHost); }
    var current := GamePlay.CurrentKey(s0, code);
    if current.None? { return Some(RoundNotFound); }
    var key := current.value;
    if db.rounds[key].state != FINAL_DEFENSE_COMPLETE { return Some(NotFinalDefenseComplete); }
    db.rounds := db.rounds[key := db.rounds[key].(state := FINAL_VOTING)];
    match GamePlay.ResolveAccused(db.State(), key, NullValue)
    case Unresolved(e) =>
      err := Some(e);
      db.Rollback(s0);
    case Resolved(_) =>
      db.Send(RoundStateChanged(code, FINAL_VOTING));
      err := None;
  }

  /** `submitFinalVote`, as one transaction. */
  method SubmitFinalVote(db: Db, code: Code, voter: PlayerId, decision: Option<string>, d: RoundDraw)
    returns (err: Option<Error>)
    modifies db
    ensures err == GamePlay.SubmitFinalVoteBody(old(db.State()), code, voter, decision, d).err
    ensures db.State() == GamePlay.SubmitFinalVote(old(db.State()), code, voter, decision, d)
  {
    var s0 := db.State();
    if code !in db.rooms { return Some(RoomNotFound); }
    if voter !in db.players { return Some(PlayerNotFound); }
    var current := GamePlay.CurrentKey(s0, code);
    if current.None? { return Some(RoundNotFound); }
    var key := current.value;
    var round := db.rounds[key];
    if round.state != FINAL_VOTING { return Some(NotFinalVotePhase); }
    if !db.players[voter].isAlive { return Some(DeadCannotVote); }
    if round.accusedPlayerId == Some(voter) { return Some(AccusedCannotVote); }
    if HasVoted(db.votes, key, voter, true) { return Some(AlreadyVoted); }
    match GamePlay.ResolveAccused(s0, key, AccusedNotFound)
    case Unresolved(e) =>
      err := Some(e);
    case Resolved(acc) =>
      db.votes := db.votes + [Vote(key, voter, acc, true, decision)];
      var eligible := |GamePlay.Without(Select(db.State(), WithAliveFlag(code, true)), acc)|;
      err := None;
      if CountBallot(db.votes, key, true) >= eligible {
        err := ProcessFinalVoteResults(db, code, key, d);
        if err.Some? {
          db.Rollback(s0);
        }
      }
  }

  /** `startVoting`, as one transaction. */
  method StartVoting(db: Db, code: Code) returns (err: Option<Error>)
    modifies db
    ensures err == GamePlay.StartVotingBody(old(db.State()), code).err
    ensures db.State() == GamePlay.StartVoting(old(db.State()), code)
  {
    var s0 := db.State();
    if code !in db.rooms { return Some(RoomNotFound); }
    var current := GamePlay.CurrentKey(s0, code);
    if current.None? { return Some(RoundNotFound); }
    var key := current.value;
    if db.rounds[key].state != DESC_COMPLETE { return Some(DescriptionsIncomplete); }
    db.rounds := db.rounds[key := db.rounds[key].(state := VOTE)];
    db.Send(RoundStateChanged(code, VOTE));
    err := None;
  }

  /** `proceedNextRound`, as one transaction. */
  method ProceedNextRound(db: Db, code: Code, host: PlayerId, d: RoundDraw) returns (err: Option<Error>)
    modifies db
    ensures err == GamePlay.ProceedNextRoundBody(old(db.State()), code, host, d).err
    ensures db.State() == GamePlay.ProceedNextRound(old(db.State()), code, host, d)
  {
    var s0 := db.State();
    if code !in db.rooms { return Some(RoomNotFound); }
    if host !in db.players { return Some(PlayerNotFound); }
    if !db.players[host].isHost { return Some(NotHost); }
    var current := GamePlay.CurrentKey(s0, code);
    if current.None? { return Some(RoundNotFound); }
    if db.rounds[current.value].state != RoundState.END { return Some(RoundNotComplete); }
    ProceedToNextRound(db, code, d);
    err := None;
  }
}
