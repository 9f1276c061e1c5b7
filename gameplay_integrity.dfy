/**
 * The round flow keeps the tables consistent: every public operation of
 * the game, accepted or refused, takes a `Valid` store to a `Valid` one.
 * The internal steps (ending a game, starting or completing a round,
 * judging a ballot) are shown to do so one by one.
 */
module GamePlayIntegrity {
  import opened Wrappers
  import opened Entities
  import opened Store
  import opened PlayerRepository
  import opened VoteRepository
  import opened Roles
  import opened Tally
  import opened GamePlay
  import opened GamePlayProofs
  import opened GamePlayGuards

  lemma EndGameKeepsValid(s: Store, code: Code, winner: Winner, keyPlayer: Option<PlayerId>)
    requires Valid(s) && code in s.rooms
    ensures Valid(EndGameWithResult(s, code, winner, keyPlayer))
  {
    RoomUpdateKeepsValid(s, code, s.rooms[code].(state := RoomState.END));
  }

  lemma KillKeepsValid(s: Store, id: PlayerId)
    requires Valid(s) && id in s.players
    ensures Valid(Kill(s, id))
  {
    SameRowsKeepValid(s, s.players[id := s.players[id].(isAlive := false)]);
  }

  lemma StartNewRoundKeepsValid(s: Store, code: Code, idx: int, d: RoundDraw)
    requires Valid(s) && code in s.rooms
    ensures Valid(StartNewRound(s, code, idx, d))
  {
    var key := RoundKey(code, idx);
    if key !in s.rounds {
      var ps := Reassign(s.players, Alive(s, code), s.rooms[code].theme, d);
      var s1 := s.(players := ps);
      var s2 := s1.(rounds := s.rounds[key := NewRound(code, idx)]);
      DealingKeepsValid(s, code, d);
      AddRoundKeepsValid(s1, code, idx);
      EmitKeepsValid(s2, RoundStateChanged(code, RoundState.READY));
      NewRoundIs(s, code, idx, d, s2);
    }
  }

  /** Dealing the alive players of a room changes no key column. */
  lemma DealingKeepsValid(s: Store, code: Code, d: RoundDraw)
    requires Valid(s) && code in s.rooms
    ensures Valid(s.(players := Reassign(s.players, Alive(s, code), s.rooms[code].theme, d)))
  {
    ReassignKeepsIdentity(s.players, Alive(s, code), s.rooms[code].theme, d);
    SameRowsKeepValid(s, Reassign(s.players, Alive(s, code), s.rooms[code].theme, d));
  }

  lemma NewRoundIs(s: Store, code: Code, idx: int, d: RoundDraw, s2: Store)
    requires code in s.rooms && RoundKey(code, idx) !in s.rounds
    requires s2 == s.(players := Reassign(s.players, Alive(s, code), s.rooms[code].theme, d),
                      rounds := s.rounds[RoundKey(code, idx) := NewRound(code, idx)])
    ensures StartNewRound(s, code, idx, d) == Emit(s2, RoundStateChanged(code, RoundState.READY))
  {
  }

  lemma ProceedKeepsValid(s: Store, code: Code, d: RoundDraw)
    requires Valid(s) && InRound(s, code)
    ensures Valid(ProceedToNextRound(s, code, d))
  {
    var room := s.rooms[code];
    if room.currentRound.value >= room.roundLimit {
      assert ProceedToNextRound(s, code, d) == EndGameWithResult(s, code, LiarWins, FirstLiar(s, Active(s, code)));
      EndGameKeepsValid(s, code, LiarWins, FirstLiar(s, Active(s, code)));
    } else {
      NextRoundKeepsValid(s, code, d);
    }
  }

  lemma NextRoundKeepsValid(s: Store, code: Code, d: RoundDraw)
    requires Valid(s) && InRound(s, code) && s.rooms[code].currentRound.value < s.rooms[code].roundLimit
    ensures Valid(ProceedToNextRound(s, code, d))
  {
    AdvancedKeepsValid(s, code);
    StartNewRoundKeepsValid(Advanced(s, code), code, s.rooms[code].currentRound.value + 1, d);
    NextRoundIs(s, code, d);
  }

  /** The store once the round number went up by one and ROUND_TRANSITION was sent. */
  function Advanced(s: Store, code: Code): Store
    requires InRound(s, code)
  {
    var room := s.rooms[code];
    var cur := room.currentRound.value;
    Emit(s.(rooms := s.rooms[code := room.(currentRound := Some(cur + 1))]), RoundTransition(code, cur + 1))
  }

  lemma AdvancedKeepsValid(s: Store, code: Code)
    requires Valid(s) && InRound(s, code)
    ensures Valid(Advanced(s, code))
  {
    var room := s.rooms[code];
    RoomUpdateKeepsValid(s, code, room.(currentRound := Some(room.currentRound.value + 1)));
  }

  lemma NextRoundIs(s: Store, code: Code, d: RoundDraw)
    requires InRound(s, code) && s.rooms[code].currentRound.value < s.rooms[code].roundLimit
    ensures ProceedToNextRound(s, code, d) == StartNewRound(Advanced(s, code), code, s.rooms[code].currentRound.value + 1, d)
  {
  }

  lemma CheckRemainingKeepsValid(s: Store, code: Code, d: RoundDraw)
    requires Valid(s) && InRound(s, code)
    ensures Valid(CheckRemainingPlayersAndProceed(s, code, d))
  {
    if |Alive(s, code)| < 3 {
      EndGameKeepsValid(s, code, LiarWins, FirstLiar(s, Alive(s, code)));
    } else {
      ProceedKeepsValid(s, code, d);
    }
  }

  lemma CompleteRoundKeepsValid(s: Store, code: Code, key: RoundKey, d: RoundDraw)
    requires Valid(s) && InRound(s, code) && key in s.rounds
    ensures Valid(CompleteCurrentRound(s, code, key, d).store)
  {
    var s1 := s.(rounds := s.rounds[key := s.rounds[key].(state := RoundState.END)]);
    RoundUpdateKeepsValid(s, key, s.rounds[key].(state := RoundState.END));
    if s1.rooms[code].currentRound.value < s1.rooms[code].roundLimit {
      ProceedKeepsValid(s1, code, d);
    } else {
      match FindByRole(s1, code, LIAR)
      case NotUnique =>
      case Missing => EndGameKeepsValid(s1, code, LiarWins, None);
      case Found(liar) => EndGameKeepsValid(s1, code, LiarWins, Some(liar));
    }
  }

  lemma FinalResultsKeepValid(s: Store, code: Code, key: RoundKey, d: RoundDraw)
    requires Valid(s) && InRound(s, code) && key in s.rounds
    ensures Valid(ProcessFinalVoteResults(s, code, key, d).store)
  {
    var ballot := Ballot(s.votes, key, true);
    match ResolveAccused(s, key, AccusedNotFound)
    case Unresolved(e) =>
    case Resolved(acc) =>
      if CountDecision(ballot, Eliminate) > CountDecision(ballot, Survive) {
        KillKeepsValid(s, acc);
        if s.players[acc].role == LIAR {
          EndGameKeepsValid(Kill(s, acc), code, CitizensWin, Some(acc));
        } else {
          CompleteRoundKeepsValid(Emit(Kill(s, acc), VoteResult(code, Eliminated(acc))), code, key, d);
        }
      } else {
        CompleteRoundKeepsValid(Emit(s, VoteResult(code, Survived(acc))), code, key, d);
      }
  }

  lemma InitialResultKeepsValid(s: Store, code: Code, key: RoundKey, d: RoundDraw)
    requires Valid(s) && InRound(s, code) && key in s.rounds
    ensures Valid(ProcessInitialVoteResult(s, code, key, d))
  {
    var outcome := InitialOutcome(CountByTarget(Ballot(s.votes, key, false)), |Alive(s, code)|);
    if outcome.NoVotes? {
      var s1 := Emit(s, VoteResult(code, NoVotes));
      assert ProcessInitialVoteResult(s, code, key, d) == ProceedToNextRound(s1, code, d);
      EmitKeepsValid(s, VoteResult(code, NoVotes));
      ProceedKeepsValid(s1, code, d);
    } else if outcome.AccusedBy? {
      var accused := s.rounds[key].(accusedPlayerId := Some(outcome.target), state := RoundState.FINAL_DEFENSE);
      var s1 := s.(rounds := s.rounds[key := accused]);
      assert ProcessInitialVoteResult(s, code, key, d) == Emit(s1, VoteResult(code, outcome));
      RoundUpdateKeepsValid(s, key, accused);
      EmitKeepsValid(s1, VoteResult(code, outcome));
    } else {
      var s1 := ProceedToNextRound(s, code, d);
      assert ProcessInitialVoteResult(s, code, key, d) == Emit(s1, VoteResult(code, outcome));
      ProceedKeepsValid(s, code, d);
      EmitKeepsValid(s1, VoteResult(code, outcome));
    }
  }

  lemma JudgmentKeepsValid(s: Store, code: Code, key: RoundKey, d: RoundDraw)
    requires Valid(s) && InRound(s, code) && key in s.rounds
    ensures Valid(ProcessJudgment(s, code, key, d).store)
  {
    match ResolveAccused(s, key, AccusedNotFound)
    case Unresolved(e) =>
    case Resolved(acc) =>
      var ballot := Ballot(s.votes, key, true);
      if ballot == [] {
        ProceedKeepsValid(Emit(s, VoteResult(code, Survived(acc))), code, d);
      } else if CountDecision(ballot, Eliminate) >= RequiredToEliminate(|Alive(s, code)|) {
        var s1 := Emit(Kill(s, acc), VoteResult(code, Eliminated(acc)));
        KillKeepsValid(s, acc);
        if s.players[acc].role == LIAR {
          EndGameKeepsValid(s1, code, CitizensWin, Some(acc));
        } else {
          CheckRemainingKeepsValid(s1, code, d);
        }
      } else {
        var s2 := ProceedToNextRound(Emit(s, VoteResult(code, Survived(acc))), code, d);
        ProceedKeepsValid(Emit(s, VoteResult(code, Survived(acc))), code, d);
        ProceedProgresses(Emit(s, VoteResult(code, Survived(acc))), code, d);
        RoundUpdateKeepsValid(s2, key, s.rounds[key].(state := RoundState.END));
      }
  }

  /** `checkVoteCompletion` keeps the tables consistent, whether or not it judges the ballot. */
  lemma CompletionKeepsValid(s: Store, code: Code, key: RoundKey, isFinal: bool, d: RoundDraw)
    requires Valid(s) && InRound(s, code) && key in s.rounds
    ensures Valid(CheckVoteCompletion(s, code, key, isFinal, d).store)
  {
    if CountBallot(s.votes, key, isFinal) >= |Alive(s, code)| {
      if isFinal {
        JudgmentKeepsValid(s, code, key, d);
      } else {
        InitialResultKeepsValid(s, code, key, d);
      }
    }
  }

  /** `submitVote` keeps the tables consistent. */
  lemma SubmitVoteKeepsValid(s: Store, code: Code, voter: PlayerId, target: PlayerId, isFinal: bool, d: RoundDraw)
    requires Valid(s)
    ensures Valid(SubmitVote(s, code, voter, target, isFinal, d))
  {
    if SubmitVoteBody(s, code, voter, target, isFinal, d).err.None? {
      VoteAccepted(s, code, voter, target, isFinal, d);
      var key := CurrentKey(s, code).value;
      var v := Vote(key, voter, target, isFinal, None);
      NewVoteUnique(s.votes, v);
      CompletionKeepsValid(s.(votes := s.votes + [v]), code, key, isFinal, d);
    }
  }

  /** `submitDescription` only adds a message log, which no consistency rule constrains. */
  lemma SubmitDescriptionKeepsValid(s: Store, code: Code, player: PlayerId, text: string)
    requires Valid(s)
    ensures Valid(SubmitDescription(s, code, player, text))
  {
  }

  /** `submitFinalDefense` keeps the tables consistent. */
  lemma SubmitFinalDefenseKeepsValid(s: Store, code: Code, player: PlayerId, text: string)
    requires Valid(s)
    ensures Valid(SubmitFinalDefense(s, code, player, text))
  {
    if SubmitFinalDefenseBody(s, code, player, text).err.None? {
      var key := CurrentKey(s, code).value;
      RoundUpdateKeepsValid(s, key, s.rounds[key].(state := FINAL_DEFENSE_COMPLETE));
    }
  }

  /** `startFinalVoting` keeps the tables consistent. */
  lemma StartFinalVotingKeepsValid(s: Store, code: Code, host: PlayerId)
    requires Valid(s)
    ensures Valid(StartFinalVoting(s, code, host))
  {
    if StartFinalVotingBody(s, code, host).err.None? {
      var key := CurrentKey(s, code).value;
      RoundUpdateKeepsValid(s, key, s.rounds[key].(state := FINAL_VOTING));
    }
  }

  /** `submitFinalVote` keeps the tables consistent. */
  lemma SubmitFinalVoteKeepsValid(s: Store, code: Code, voter: PlayerId, decision: Option<string>, d: RoundDraw)
    requires Valid(s)
    ensures Valid(SubmitFinalVote(s, code, voter, decision, d))
  {
    var st := SubmitFinalVoteBody(s, code, voter, decision, d);
    if st.err.None? {
      FinalVoteIs(s, code, voter, decision, d);
      var key := CurrentKey(s, code).value;
      var v := Vote(key, voter, s.rounds[key].accusedPlayerId.value, true, decision);
      NewVoteUnique(s.votes, v);
      VoteKeepsValid(s, v);
      FinalResultsKeepValid(s.(votes := s.votes + [v]), code, key, d);
    }
    CommitKeepsValid(s, st);
  }

  /** An accepted final vote is stored, and then the ballot may be judged. */
  lemma FinalVoteIs(s: Store, code: Code, voter: PlayerId, decision: Option<string>, d: RoundDraw)
    requires SubmitFinalVoteBody(s, code, voter, decision, d).err.None?
    ensures code in s.rooms && CurrentKey(s, code).Some?
    ensures var key := CurrentKey(s, code).value;
      HasAccused(s, key) && !HasVoted(s.votes, key, voter, true)
    ensures var key := CurrentKey(s, code).value;
      var s1 := s.(votes := s.votes + [Vote(key, voter, s.rounds[key].accusedPlayerId.value, true, decision)]);
      SubmitFinalVoteBody(s, code, voter, decision, d) == Ok(s1) ||
      SubmitFinalVoteBody(s, code, voter, decision, d) == ProcessFinalVoteResults(s1, code, key, d)
  {
  }

  /** `startVoting` keeps the tables consistent. */
  lemma StartVotingKeepsValid(s: Store, code: Code)
    requires Valid(s)
    ensures Valid(StartVoting(s, code))
  {
    if StartVotingBody(s, code).err.None? {
      var key := CurrentKey(s, code).value;
      RoundUpdateKeepsValid(s, key, s.rounds[key].(state := VOTE));
    }
  }

  /** `proceedNextRound` keeps the tables consistent. */
  lemma ProceedNextRoundKeepsValid(s: Store, code: Code, host: PlayerId, d: RoundDraw)
    requires Valid(s)
    ensures Valid(ProceedNextRound(s, code, host, d))
  {
    ProceedNextRoundGuard(s, code, host, d);
    if ProceedNextRoundBody(s, code, host, d).err.None? {
      ProceedKeepsValid(s, code, d);
    }
  }

  /** A round `startNewRound` creates starts with no votes of either kind and no messages, as a new round row holds none. */
  lemma NewRoundStartsEmpty(s: Store, code: Code, idx: int, d: RoundDraw)
    requires Valid(s) && code in s.rooms
    ensures var t := StartNewRound(s, code, idx, d);
      RoundKey(code, idx) !in s.rounds ==>
        RoundKey(code, idx) in t.rounds &&
        Ballot(t.votes, RoundKey(code, idx), false) == [] && Ballot(t.votes, RoundKey(code, idx), true) == [] &&
        forall m :: m in t.messages ==> m.round != RoundKey(code, idx)
  {
    var key := RoundKey(code, idx);
    if key !in s.rounds {
      NoBallotFor(s.votes, key, false);
      NoBallotFor(s.votes, key, true);
    }
  }
}
