/**
 * What the round flow guarantees: the effects of ending a game and of
 * advancing a round, the two judgment paths, and the guards of the
 * public operations.
 */
module GamePlayProofs {
  import opened Wrappers
  import opened Entities
  import opened Store
  import opened PlayerRepository
  import opened VoteRepository
  import opened Roles
  import opened Tally
  import opened GamePlay

  /**
   * `t` followed from `s` without touching votes, messages or ids, without
   * changing who is who (alive, present, host), without altering any
   * existing round, and only by sending further messages.
   */
  ghost predicate Progress(s: Store, t: Store) {
    t.votes == s.votes && t.messages == s.messages && t.nextPlayerId == s.nextPlayerId &&
    t.rooms.Keys == s.rooms.Keys && t.players.Keys == s.players.Keys &&
    (forall id :: id in s.players ==> SameIdentity(t.players[id], s.players[id])) &&
    (forall k :: k in s.rounds ==> k in t.rounds && t.rounds[k] == s.rounds[k]) &&
    |s.events| <= |t.events| && t.events[..|s.events|] == s.events
  }

  /**
   * The messages `t` added to `s` are exactly one GAME_END per present
   * player of the room, in order, all naming `winner`, each with the
   * reason that player's role calls for.
   */
  ghost predicate Announced(s: Store, t: Store, code: Code, winner: Winner) {
    var ids := Active(s, code);
    |s.events| <= |t.events| && t.events[..|s.events|] == s.events &&
    |t.events| - |s.events| == |ids| &&
    forall i :: 0 <= i < |ids| ==>
      var e := t.events[|s.events| + i];
      ids[i] in s.players && e.GameEnd? && e.code == code && e.recipient == ids[i] &&
      e.winner == winner && e.reason == Reason(s.players[ids[i]].role, winner)
  }

  lemma EndGameEffects(s: Store, code: Code, winner: Winner, keyPlayer: Option<PlayerId>)
    requires code in s.rooms
    ensures var t := EndGameWithResult(s, code, winner, keyPlayer);
      t.rooms == s.rooms[code := s.rooms[code].(state := RoomState.END)] &&
      t.players == s.players && t.rounds == s.rounds &&
      Progress(s, t) && Announced(s, t, code, winner)
  {
    var t := EndGameWithResult(s, code, winner, keyPlayer);
    var es := GameEndMessages(s.players, code, Active(s, code), winner, NamedLiar(s, code, keyPlayer));
    assert t.events == s.events + es;
    assert forall i :: 0 <= i < |es| ==> t.events[|s.events| + i] == es[i];
  }

  /** A dealing changes roles, words and order only. */
  lemma ReassignKeepsIdentity(m: map<PlayerId, Player>, alive: seq<PlayerId>, theme: Theme, d: RoundDraw)
    requires forall id :: id in alive ==> id in m
    requires Distinct(alive)
    ensures var r := Reassign(m, alive, theme, d);
      r.Keys == m.Keys && forall id :: id in m ==> SameIdentity(r[id], m[id])
  {
    if alive == [] {
      ReassignNobody(m, theme, d);
    } else {
      var liar := ReassignDeals(m, alive, theme, d);
    }
  }

  /**
   * `startNewRound` creates the round only when no round has that index,
   * as READY with nobody accused, and deals the alive players; an existing
   * round is left exactly as it was, and so is everything else.
   */
  lemma StartNewRoundEffects(s: Store, code: Code, idx: int, d: RoundDraw)
    requires code in s.rooms
    ensures var t := StartNewRound(s, code, idx, d); var key := RoundKey(code, idx);
      Progress(s, t) && t.rooms == s.rooms && key in t.rounds &&
      (key in s.rounds ==> t == s) &&
      (key !in s.rounds ==> t.rounds == s.rounds[key := NewRound(code, idx)] &&
                            t.events == s.events + [RoundStateChanged(code, RoundState.READY)])
  {
    var key := RoundKey(code, idx);
    if key !in s.rounds {
      ReassignKeepsIdentity(s.players, Alive(s, code), s.rooms[code].theme, d);
    }
  }

  /** A new round deals the alive players: one liar, one citizen word, orders 1..n. */
  lemma StartNewRoundDeals(s: Store, code: Code, idx: int, d: RoundDraw)
    requires code in s.rooms && RoundKey(code, idx) !in s.rounds && Alive(s, code) != []
    ensures exists liar :: Dealt(s.players, StartNewRound(s, code, idx, d).players, Alive(s, code), s.rooms[code].theme, liar)
  {
    var liar := ReassignDeals(s.players, Alive(s, code), s.rooms[code].theme, d);
    assert StartNewRound(s, code, idx, d).players == Reassign(s.players, Alive(s, code), s.rooms[code].theme, d);
    assert Dealt(s.players, StartNewRound(s, code, idx, d).players, Alive(s, code), s.rooms[code].theme, liar);
  }

  /**
   * `proceedToNextRound` at the limit: the room ends, the round number
   * stays, nothing else changes and the liar's side is announced winner.
   */
  lemma ProceedAtLimit(s: Store, code: Code, d: RoundDraw)
    requires InRound(s, code) && s.rooms[code].currentRound.value >= s.rooms[code].roundLimit
    ensures var t := ProceedToNextRound(s, code, d);
      t.rooms[code] == s.rooms[code].(state := RoomState.END) &&
      t.rooms[code].currentRound == s.rooms[code].currentRound &&
      t.players == s.players && t.rounds == s.rounds &&
      Progress(s, t) && Announced(s, t, code, LiarWins)
  {
    EndGameEffects(s, code, LiarWins, FirstLiar(s, Active(s, code)));
  }

  /**
   * `proceedToNextRound` below the limit: the round number goes up by
   * exactly one and that round exists afterwards, a fresh READY one unless
   * a round with that index was already there, which is kept as it was.
   */
  lemma ProceedBelowLimit(s: Store, code: Code, d: RoundDraw)
    requires InRound(s, code) && s.rooms[code].currentRound.value < s.rooms[code].roundLimit
    ensures var t := ProceedToNextRound(s, code, d); var room := s.rooms[code];
      var next := RoundKey(code, room.currentRound.value + 1);
      t.rooms == s.rooms[code := room.(currentRound := Some(room.currentRound.value + 1))] &&
      t.rooms[code].state == room.state &&
      Progress(s, t) && next in t.rounds &&
      (next !in s.rounds ==> t.rounds == s.rounds[next := NewRound(code, next.idx)]) &&
      (next in s.rounds ==> t.rounds == s.rounds && t.players == s.players)
  {
    var room := s.rooms[code];
    var cur := room.currentRound.value;
    var s1 := Emit(s.(rooms := s.rooms[code := room.(currentRound := Some(cur + 1))]), RoundTransition(code, cur + 1));
    var t := ProceedToNextRound(s, code, d);
    assert t == StartNewRound(s1, code, cur + 1, d);
    StartNewRoundEffects(s1, code, cur + 1, d);
    ProgressTrans(s, s1, t);
  }

  lemma ProgressTrans(a: Store, b: Store, c: Store)
    requires Progress(a, b) && Progress(b, c)
    ensures Progress(a, c)
  {
    assert c.events[..|a.events|] == c.events[..|b.events|][..|a.events|];
  }

  /** Advancing keeps the frame, whichever branch is taken. */
  lemma ProceedProgresses(s: Store, code: Code, d: RoundDraw)
    requires InRound(s, code)
    ensures var t := ProceedToNextRound(s, code, d);
      Progress(s, t) && InRound(t, code) && t.rooms.Keys == s.rooms.Keys
  {
    if s.rooms[code].currentRound.value >= s.rooms[code].roundLimit {
      ProceedAtLimit(s, code, d);
    } else {
      ProceedBelowLimit(s, code, d);
    }
  }

  /** `checkRemainingPlayersAndProceed`: under three alive players the liar's side wins. */
  lemma CheckRemainingEffects(s: Store, code: Code, d: RoundDraw)
    requires InRound(s, code)
    ensures var t := CheckRemainingPlayersAndProceed(s, code, d);
      Progress(s, t) &&
      (|Alive(s, code)| < 3 ==> t.rooms[code].state == RoomState.END && Announced(s, t, code, LiarWins)) &&
      (|Alive(s, code)| >= 3 ==> t == ProceedToNextRound(s, code, d))
  {
    if |Alive(s, code)| < 3 {
      EndGameEffects(s, code, LiarWins, FirstLiar(s, Alive(s, code)));
    } else {
      ProceedProgresses(s, code, d);
    }
  }

  /** The key of the room's current round. */
  predicate IsCurrent(s: Store, code: Code, key: RoundKey) {
    InRound(s, code) && key == RoundKey(code, s.rooms[code].currentRound.value) && key in s.rounds
  }

  /**
   * `completeCurrentRound` marks the round END and keeps it so; it fails
   * only when the room has more than one liar at the round limit.
   */
  lemma CompleteCurrentRoundEffects(s: Store, code: Code, key: RoundKey, d: RoundDraw)
    requires IsCurrent(s, code, key)
    ensures var st := CompleteCurrentRound(s, code, key, d);
      var s1 := s.(rounds := s.rounds[key := s.rounds[key].(state := RoundState.END)]);
      st.store.rounds[key] == s.rounds[key].(state := RoundState.END) &&
      Progress(s1, st.store) &&
      (st.err.Some? <==> st.err == Some(NonUniqueResult)) &&
      (st.err.Some? ==> s.rooms[code].currentRound.value >= s.rooms[code].roundLimit &&
                        |Select(s1, WithRole(code, LIAR))| > 1)
  {
    var s1 := s.(rounds := s.rounds[key := s.rounds[key].(state := RoundState.END)]);
    if s1.rooms[code].currentRound.value < s1.rooms[code].roundLimit {
      ProceedProgresses(s1, code, d);
    } else {
      match FindByRole(s1, code, LIAR)
      case NotUnique =>
      case Missing => EndGameEffects(s1, code, LiarWins, None);
      case Found(liar) => EndGameEffects(s1, code, LiarWins, Some(liar));
    }
  }

  /** The current round has an accused who is a known player. */
  predicate HasAccused(s: Store, key: RoundKey) {
    key in s.rounds && s.rounds[key].accusedPlayerId.Some? && s.rounds[key].accusedPlayerId.value in s.players
  }

  /**
   * `processFinalVoteResults`: the accused dies iff ELIMINATE votes
   * outnumber SURVIVE votes, so a tie is survival. A dead liar ends the
   * game at once with the citizens as winner; every other outcome ends
   * the round.
   */
  lemma FinalVerdict(s: Store, code: Code, key: RoundKey, d: RoundDraw)
    requires IsCurrent(s, code, key) && HasAccused(s, key)
    ensures var acc := s.rounds[key].accusedPlayerId.value;
      var ballot := Ballot(s.votes, key, true);
      var eliminate := CountDecision(ballot, Eliminate);
      var survive := CountDecision(ballot, Survive);
      var st := ProcessFinalVoteResults(s, code, key, d);
      acc in st.store.players && code in st.store.rooms && key in st.store.rounds && st.store.votes == s.votes &&
      (eliminate > survive ==> !st.store.players[acc].isAlive) &&
      (eliminate <= survive ==> st.store.players[acc].isAlive == s.players[acc].isAlive) &&
      (eliminate > survive && s.players[acc].role == LIAR ==>
         st.err.None? && st.store.rooms[code].state == RoomState.END && st.store.rounds == s.rounds &&
         Announced(Kill(s, acc), st.store, code, CitizensWin)) &&
      (!(eliminate > survive && s.players[acc].role == LIAR) ==>
         st.store.rounds[key].state == RoundState.END &&
         (st.err.Some? ==> st.err == Some(NonUniqueResult)))
  {
    var acc := s.rounds[key].accusedPlayerId.value;
    var ballot := Ballot(s.votes, key, true);
    if CountDecision(ballot, Eliminate) > CountDecision(ballot, Survive) {
      var s1 := Kill(s, acc);
      if s.players[acc].role == LIAR {
        EndGameEffects(s1, code, CitizensWin, Some(acc));
      } else {
        CompleteCurrentRoundEffects(Emit(s1, VoteResult(code, Eliminated(acc))), code, key, d);
      }
    } else {
      CompleteCurrentRoundEffects(Emit(s, VoteResult(code, Survived(acc))), code, key, d);
    }
  }

  /**
   * `processJudgment`: with final votes cast, the accused dies iff the
   * ELIMINATE votes reach a majority of the alive players other than the
   * accused; a dead liar ends the game for the citizens. Only survival
   * after a vote ends the old round: an empty ballot and the death of a
   * citizen move on with the old round left as it was.
   */
  lemma JudgmentVerdict(s: Store, code: Code, key: RoundKey, d: RoundDraw)
    requires IsCurrent(s, code, key) && HasAccused(s, key)
    ensures var acc := s.rounds[key].accusedPlayerId.value;
      var ballot := Ballot(s.votes, key, true);
      var dies := ballot != [] && CountDecision(ballot, Eliminate) >= RequiredToEliminate(|Alive(s, code)|);
      var st := ProcessJudgment(s, code, key, d);
      st.err.None? && acc in st.store.players && code in st.store.rooms && key in st.store.rounds &&
      st.store.votes == s.votes &&
      (dies ==> !st.store.players[acc].isAlive) &&
      (!dies ==> st.store.players[acc].isAlive == s.players[acc].isAlive) &&
      (dies && s.players[acc].role == LIAR ==>
         st.store.rooms[code].state == RoomState.END &&
         Announced(Emit(Kill(s, acc), VoteResult(code, Eliminated(acc))), st.store, code, CitizensWin)) &&
      (dies && s.players[acc].role != LIAR ==> st.store.rounds[key] == s.rounds[key]) &&
      (ballot == [] ==> st.store.rounds[key] == s.rounds[key]) &&
      (ballot != [] && !dies ==> st.store.rounds[key] == s.rounds[key].(state := RoundState.END))
  {
    var acc := s.rounds[key].accusedPlayerId.value;
    var ballot := Ballot(s.votes, key, true);
    if ballot == [] {
      ProceedProgresses(Emit(s, VoteResult(code, Survived(acc))), code, d);
    } else if CountDecision(ballot, Eliminate) >= RequiredToEliminate(|Alive(s, code)|) {
      var s1 := Emit(Kill(s, acc), VoteResult(code, Eliminated(acc)));
      if s.players[acc].role == LIAR {
        EndGameEffects(s1, code, CitizensWin, Some(acc));
      } else {
        CheckRemainingEffects(s1, code, d);
        ProceedProgresses(s1, code, d);
      }
    } else {
      ProceedProgresses(Emit(s, VoteResult(code, Survived(acc))), code, d);
    }
  }

  /**
   * `processInitialVoteResult` accuses the first target with the highest
   * count when that count is a majority of the alive players, or at
   * least two and held by nobody else. The accused is recorded and the
   * round moves to FINAL_DEFENSE; nobody's life changes.
   */
  lemma AccusationRule(s: Store, code: Code, key: RoundKey, d: RoundDraw)
    requires IsCurrent(s, code, key)
    ensures var cs := CountByTarget(Ballot(s.votes, key, false));
      var t := ProcessInitialVoteResult(s, code, key, d);
      cs != [] && (MaxCount(cs) >= Required(|Alive(s, code)|) || (MaxCount(cs) >= 2 && CountWith(cs, MaxCount(cs)) == 1)) ==>
        var accused := cs[FirstMax(cs)].target;
        t.players == s.players && t.rooms == s.rooms && t.votes == s.votes &&
        t.rounds == s.rounds[key := s.rounds[key].(accusedPlayerId := Some(accused), state := RoundState.FINAL_DEFENSE)] &&
        t.events == s.events + [VoteResult(code, AccusedBy(accused))]
  {
    var cs := CountByTarget(Ballot(s.votes, key, false));
    if cs != [] {
      InitialOutcomeRule(cs, |Alive(s, code)|);
      var o := InitialOutcome(cs, |Alive(s, code)|);
      if o.AccusedBy? {
        AccusedStep(s, code, key, d, o.target);
      }
    }
  }

  lemma AccusedStep(s: Store, code: Code, key: RoundKey, d: RoundDraw, accused: PlayerId)
    requires IsCurrent(s, code, key)
    requires InitialOutcome(CountByTarget(Ballot(s.votes, key, false)), |Alive(s, code)|) == AccusedBy(accused)
    ensures ProcessInitialVoteResult(s, code, key, d) ==
      Emit(s.(rounds := s.rounds[key := s.rounds[key].(accusedPlayerId := Some(accused), state := RoundState.FINAL_DEFENSE)]),
           VoteResult(code, AccusedBy(accused)))
  {
  }

  /**
   * Without an accusation the game moves on (or ends at the limit) and
   * the old round keeps its state: it is not marked END.
   */
  lemma NoAccusationLeavesRoundOpen(s: Store, code: Code, key: RoundKey, d: RoundDraw)
    requires IsCurrent(s, code, key)
    ensures var cs := CountByTarget(Ballot(s.votes, key, false));
      var t := ProcessInitialVoteResult(s, code, key, d);
      !(cs != [] && (MaxCount(cs) >= Required(|Alive(s, code)|) || (MaxCount(cs) >= 2 && CountWith(cs, MaxCount(cs)) == 1))) ==>
        Progress(s, t) && t.rounds[key] == s.rounds[key] &&
        VoteResult(code, if cs == [] then NoVotes else NoMajority) in t.events[|s.events|..]
  {
    var cs := CountByTarget(Ballot(s.votes, key, false));
    var alive := |Alive(s, code)|;
    if cs == [] {
      NoVotesMovesOn(s, code, key, d);
    } else {
      InitialOutcomeRule(cs, alive);
      if !(MaxCount(cs) >= Required(alive) || (MaxCount(cs) >= 2 && CountWith(cs, MaxCount(cs)) == 1)) {
        NoMajorityMovesOn(s, code, key, d);
      }
    }
  }

  lemma NoVotesMovesOn(s: Store, code: Code, key: RoundKey, d: RoundDraw)
    requires IsCurrent(s, code, key) && CountByTarget(Ballot(s.votes, key, false)) == []
    ensures var t := ProcessInitialVoteResult(s, code, key, d);
      Progress(s, t) && t.rounds[key] == s.rounds[key] && VoteResult(code, NoVotes) in t.events[|s.events|..]
  {
    NoVotesStep(s, code, key, d);
    var s1 := Emit(s, VoteResult(code, NoVotes));
    ProceedProgresses(s1, code, d);
    ProgressAfterEmit(s, VoteResult(code, NoVotes), ProceedToNextRound(s1, code, d));
  }

  lemma NoVotesStep(s: Store, code: Code, key: RoundKey, d: RoundDraw)
    requires IsCurrent(s, code, key) && CountByTarget(Ballot(s.votes, key, false)) == []
    ensures ProcessInitialVoteResult(s, code, key, d) == ProceedToNextRound(Emit(s, VoteResult(code, NoVotes)), code, d)
  {
  }

  lemma ProgressAfterEmit(s: Store, e: Event, t: Store)
    requires Progress(Emit(s, e), t)
    ensures Progress(s, t) && e in t.events[|s.events|..]
  {
    assert t.events[..|s.events|] == t.events[..|s.events| + 1][..|s.events|];
    assert t.events[|s.events|..][0] == e;
  }

  lemma NoMajorityMovesOn(s: Store, code: Code, key: RoundKey, d: RoundDraw)
    requires IsCurrent(s, code, key)
    requires InitialOutcome(CountByTarget(Ballot(s.votes, key, false)), |Alive(s, code)|) == NoMajority
    ensures var t := ProcessInitialVoteResult(s, code, key, d);
      Progress(s, t) && t.rounds[key] == s.rounds[key] && VoteResult(code, NoMajority) in t.events[|s.events|..]
  {
    NoMajorityStep(s, code, key, d);
    ProceedProgresses(s, code, d);
    var t := ProceedToNextRound(s, code, d);
    EmitAfterProgress(s, t, VoteResult(code, NoMajority));
  }

  lemma NoMajorityStep(s: Store, code: Code, key: RoundKey, d: RoundDraw)
    requires IsCurrent(s, code, key)
    requires InitialOutcome(CountByTarget(Ballot(s.votes, key, false)), |Alive(s, code)|) == NoMajority
    ensures ProcessInitialVoteResult(s, code, key, d) == Emit(ProceedToNextRound(s, code, d), VoteResult(code, NoMajority))
  {
  }

  lemma EmitAfterProgress(s: Store, t: Store, e: Event)
    requires Progress(s, t)
    ensures Progress(s, Emit(t, e)) && e in Emit(t, e).events[|s.events|..]
  {
    var u := Emit(t, e);
    assert u.events[..|s.events|] == t.events[..|s.events|];
    assert u.events[|s.events|..][|t.events| - |s.events|] == e;
  }

  /** Judging a ballot never adds or removes votes. */
  lemma CompletionKeepsVotes(s: Store, code: Code, key: RoundKey, isFinal: bool, d: RoundDraw)
    requires IsCurrent(s, code, key)
    ensures CheckVoteCompletion(s, code, key, isFinal, d).store.votes == s.votes
  {
    if CountBallot(s.votes, key, isFinal) >= |Alive(s, code)| {
      if isFinal {
        if HasAccused(s, key) { JudgmentVerdict(s, code, key, d); }
      } else {
        var cs := CountByTarget(Ballot(s.votes, key, false));
        AccusationRule(s, code, key, d);
        NoAccusationLeavesRoundOpen(s, code, key, d);
      }
    }
  }
}
