/**
 * The guards of the public round operations: what each refuses, that a
 * refusal leaves the store as it was, and what an accepted call records.
 */
module GamePlayGuards {
  import opened Wrappers
  import opened Entities
  import opened Store
  import opened PlayerRepository
  import opened VoteRepository
  import opened Roles
  import opened Tally
  import opened GamePlay
  import opened GamePlayProofs

  /**
   * A vote from a dead voter, at oneself, outside VOTE, or a second vote
   * in the same ballot is refused and stores nothing.
   */
  lemma VoteRefused(s: Store, code: Code, voter: PlayerId, target: PlayerId, isFinal: bool, d: RoundDraw)
    requires code in s.rooms && voter in s.players && target in s.players && CurrentKey(s, code).Some?
    requires var key := CurrentKey(s, code).value;
      !s.players[voter].isAlive || voter == target || s.rounds[key].state != VOTE ||
      HasVoted(s.votes, key, voter, isFinal)
    ensures SubmitVoteBody(s, code, voter, target, isFinal, d).err.Some?
    ensures SubmitVote(s, code, voter, target, isFinal, d) == s
  {
  }

  /**
   * An accepted vote passed every guard, and exactly that vote is added:
   * judging the ballot it may complete adds or removes no vote.
   */
  lemma VoteAccepted(s: Store, code: Code, voter: PlayerId, target: PlayerId, isFinal: bool, d: RoundDraw)
    requires SubmitVoteBody(s, code, voter, target, isFinal, d).err.None?
    ensures code in s.rooms && voter in s.players && target in s.players
    ensures s.players[voter].isAlive && voter != target && CurrentKey(s, code).Some?
    ensures var key := CurrentKey(s, code).value;
      s.rounds[key].state == VOTE && !HasVoted(s.votes, key, voter, isFinal) &&
      SubmitVote(s, code, voter, target, isFinal, d).votes == s.votes + [Vote(key, voter, target, isFinal, None)]
  {
    var key := CurrentKey(s, code).value;
    var s1 := s.(votes := s.votes + [Vote(key, voter, target, isFinal, None)]);
    CompletionKeepsVotes(s1, code, key, isFinal, d);
  }

  /**
   * Every way `submitVote` throws: a missing room, voter, target or
   * current round, one of the guards of `VoteRefused`, or a final vote
   * that completes its ballot while the round has no accused the player
   * table knows, which `processJudgment`'s `findById` then rejects.
   * A throw leaves every table as it was.
   */
  lemma VoteFailure(s: Store, code: Code, voter: PlayerId, target: PlayerId, isFinal: bool, d: RoundDraw)
    ensures var st := SubmitVoteBody(s, code, voter, target, isFinal, d);
      st.err.Some? <==>
        if code !in s.rooms || voter !in s.players || target !in s.players || CurrentKey(s, code).None? then true
        else
          var key := CurrentKey(s, code).value;
          !s.players[voter].isAlive || voter == target || s.rounds[key].state != VOTE ||
          HasVoted(s.votes, key, voter, isFinal) ||
          (isFinal && CountBallot(s.votes, key, true) + 1 >= |Alive(s, code)| && !HasAccused(s, key))
    ensures var st := SubmitVoteBody(s, code, voter, target, isFinal, d);
      code in s.rooms && voter in s.players && target in s.players && CurrentKey(s, code).Some? &&
      s.players[voter].isAlive && voter != target && st.err.Some? ==>
        var key := CurrentKey(s, code).value;
        st.err == if s.rounds[key].state != VOTE then Some(if isFinal then NotFinalVotePhase else NotVotePhase)
                  else if HasVoted(s.votes, key, voter, isFinal) then Some(AlreadyVoted)
                  else if s.rounds[key].accusedPlayerId.None? then Some(NullValue)
                  else Some(AccusedNotFound)
    ensures var t := SubmitVote(s, code, voter, target, isFinal, d);
      SubmitVoteBody(s, code, voter, target, isFinal, d).err.Some? ==>
        t.rooms == s.rooms && t.players == s.players && t.rounds == s.rounds &&
        t.votes == s.votes && t.messages == s.messages
  {
    if code in s.rooms && voter in s.players && target in s.players && CurrentKey(s, code).Some? &&
       s.players[voter].isAlive && voter != target {
      var key := CurrentKey(s, code).value;
      if s.rounds[key].state == VOTE && !HasVoted(s.votes, key, voter, isFinal) {
        var v := Vote(key, voter, target, isFinal, None);
        var s1 := s.(votes := s.votes + [v]);
        BallotsAreSeparate(s.votes, v, key, !isFinal);
        assert Alive(s1, code) == Alive(s, code);
        if isFinal && CountBallot(s1.votes, key, true) >= |Alive(s1, code)| && HasAccused(s1, key) {
          JudgmentVerdict(s1, code, key, d);
        }
      }
    }
  }

  /** `submitVote` keeps at most one vote per (round, voter, isFinalVote). */
  lemma VotesStayUnique(s: Store, code: Code, voter: PlayerId, target: PlayerId, isFinal: bool, d: RoundDraw)
    requires UniqueVotes(s.votes)
    ensures UniqueVotes(SubmitVote(s, code, voter, target, isFinal, d).votes)
  {
    if SubmitVoteBody(s, code, voter, target, isFinal, d).err.None? {
      VoteAccepted(s, code, voter, target, isFinal, d);
      NewVoteUnique(s.votes, Vote(CurrentKey(s, code).value, voter, target, isFinal, None));
    }
  }

  /** A vote whose key has no vote yet keeps the unique constraint. */
  lemma NewVoteUnique(vs: seq<Vote>, v: Vote)
    requires UniqueVotes(vs) && !HasVoted(vs, v.round, v.voter, v.isFinalVote)
    ensures UniqueVotes(vs + [v])
  {
    var ws := vs + [v];
    forall i, j | 0 <= i < j < |ws| ensures VoteKeyOf(ws[i]) != VoteKeyOf(ws[j]) {
      if j == |vs| {
        assert ws[i] == vs[i];
      }
    }
  }

  lemma FinalVoteNeedsVotePhase(round: Round)
    ensures ValidateVoteState(round, true).None? <==> round.state == VOTE
    ensures ValidateVoteState(round, true) == ValidateVoteState(round, false) || round.state != VOTE
  {
  }

  /**
   * `submitDescription` accepts an alive player's text in any phase and
   * any number of times, logging it with its summary and nothing else.
   */
  lemma DescriptionInAnyPhase(s: Store, code: Code, player: PlayerId, text: string)
    ensures var st := SubmitDescriptionBody(s, code, player, text);
      st.err.None? <==> code in s.rooms && player in s.players && s.players[player].isAlive && CurrentKey(s, code).Some?
    ensures var t := SubmitDescription(s, code, player, text);
      SubmitDescriptionBody(s, code, player, text).err.None? ==>
        t.messages == s.messages + [MessageLog(code, CurrentKey(s, code).value, player, MessageType.DESC, text, GenerateSummary(text))] &&
        t.rounds == s.rounds && t.players == s.players && t.votes == s.votes &&
        t.events == s.events + [DescriptionUpdate(code, player, text)]
    ensures SubmitDescriptionBody(s, code, player, text).err.Some? ==> SubmitDescription(s, code, player, text) == s
  {
  }

  /** Describing twice is accepted twice. */
  lemma DescriptionTwice(s: Store, code: Code, player: PlayerId, text1: string, text2: string)
    requires SubmitDescriptionBody(s, code, player, text1).err.None?
    ensures SubmitDescriptionBody(SubmitDescription(s, code, player, text1), code, player, text2).err.None?
  {
    DescriptionInAnyPhase(s, code, player, text1);
    var t := SubmitDescription(s, code, player, text1);
    DescriptionInAnyPhase(t, code, player, text2);
  }

  /**
   * `submitFinalDefense` is accepted only in FINAL_DEFENSE and only from
   * the accused; it moves the round to FINAL_DEFENSE_COMPLETE.
   */
  lemma FinalDefenseGuard(s: Store, code: Code, player: PlayerId, text: string)
    ensures var st := SubmitFinalDefenseBody(s, code, player, text);
      st.err.None? <==>
        code in s.rooms && player in s.players && CurrentKey(s, code).Some? &&
        s.rounds[CurrentKey(s, code).value].state == RoundState.FINAL_DEFENSE &&
        s.rounds[CurrentKey(s, code).value].accusedPlayerId == Some(player)
    ensures var t := SubmitFinalDefense(s, code, player, text);
      SubmitFinalDefenseBody(s, code, player, text).err.None? ==>
        var key := CurrentKey(s, code).value;
        t.rounds == s.rounds[key := s.rounds[key].(state := FINAL_DEFENSE_COMPLETE)] &&
        t.players == s.players && t.rooms == s.rooms && t.votes == s.votes &&
        t.messages == s.messages + [MessageLog(code, key, player, MessageType.FINAL_DEFENSE, text, GenerateSummary(text))]
    ensures SubmitFinalDefenseBody(s, code, player, text).err.Some? ==> SubmitFinalDefense(s, code, player, text) == s
  {
  }

  /** After one accepted final defense, any further one is refused as out of phase. */
  lemma SecondDefenseRefused(s: Store, code: Code, player: PlayerId, text: string, player2: PlayerId, text2: string)
    requires SubmitFinalDefenseBody(s, code, player, text).err.None?
    requires player2 in s.players
    ensures SubmitFinalDefenseBody(SubmitFinalDefense(s, code, player, text), code, player2, text2).err == Some(NotFinalDefensePhase)
  {
    FinalDefenseGuard(s, code, player, text);
  }

  /**
   * `startFinalVoting` needs a host and FINAL_DEFENSE_COMPLETE; on success
   * the round is in FINAL_VOTING. A missing accused fails it after the
   * state change, which the rollback undoes.
   */
  lemma StartFinalVotingGuard(s: Store, code: Code, host: PlayerId)
    ensures var st := StartFinalVotingBody(s, code, host);
      st.err.None? <==>
        code in s.rooms && host in s.players && s.players[host].isHost && CurrentKey(s, code).Some? &&
        s.rounds[CurrentKey(s, code).value].state == FINAL_DEFENSE_COMPLETE &&
        HasAccused(s, CurrentKey(s, code).value)
    ensures var t := StartFinalVoting(s, code, host);
      StartFinalVotingBody(s, code, host).err.None? ==>
        var key := CurrentKey(s, code).value;
        t.rounds == s.rounds[key := s.rounds[key].(state := FINAL_VOTING)] &&
        t.players == s.players && t.votes == s.votes &&
        t.events == s.events + [RoundStateChanged(code, FINAL_VOTING)]
    ensures StartFinalVotingBody(s, code, host).err.Some? ==> StartFinalVoting(s, code, host) == s
  {
  }

  /**
   * A final vote outside FINAL_VOTING, from a dead voter, from the
   * accused, or a second one from the same voter is refused and stores
   * nothing.
   */
  lemma FinalVoteRefused(s: Store, code: Code, voter: PlayerId, decision: Option<string>, d: RoundDraw)
    requires code in s.rooms && voter in s.players && CurrentKey(s, code).Some?
    requires var key := CurrentKey(s, code).value;
      s.rounds[key].state != FINAL_VOTING || !s.players[voter].isAlive ||
      s.rounds[key].accusedPlayerId == Some(voter) || HasVoted(s.votes, key, voter, true)
    ensures SubmitFinalVoteBody(s, code, voter, decision, d).err.Some?
    ensures SubmitFinalVote(s, code, voter, decision, d) == s
  {
  }

  /**
   * An accepted final vote records the voter's decision against the
   * accused. Once the ballot has as many votes as there are alive players
   * other than the accused, the accused dies iff ELIMINATE outnumbers
   * SURVIVE; until then nobody's life changes.
   */
  lemma FinalVoteOutcome(s: Store, code: Code, voter: PlayerId, decision: Option<string>, d: RoundDraw)
    requires SubmitFinalVoteBody(s, code, voter, decision, d).err.None?
    ensures code in s.rooms && voter in s.players && CurrentKey(s, code).Some?
    ensures var key := CurrentKey(s, code).value;
      s.rounds[key].state == FINAL_VOTING && s.players[voter].isAlive && HasAccused(s, key) &&
      s.rounds[key].accusedPlayerId != Some(voter) && !HasVoted(s.votes, key, voter, true)
    ensures var key := CurrentKey(s, code).value;
      var acc := s.rounds[key].accusedPlayerId.value;
      var votes := s.votes + [Vote(key, voter, acc, true, decision)];
      var ballot := Ballot(votes, key, true);
      var complete := CountBallot(votes, key, true) >= |Without(Select(s, WithAliveFlag(code, true)), acc)|;
      var t := SubmitFinalVote(s, code, voter, decision, d);
      t.votes == votes && acc in t.players &&
      (complete && CountDecision(ballot, Eliminate) > CountDecision(ballot, Survive) ==> !t.players[acc].isAlive) &&
      (!(complete && CountDecision(ballot, Eliminate) > CountDecision(ballot, Survive)) ==>
         t.players[acc].isAlive == s.players[acc].isAlive)
  {
    var key := CurrentKey(s, code).value;
    var acc := s.rounds[key].accusedPlayerId.value;
    var s1 := s.(votes := s.votes + [Vote(key, voter, acc, true, decision)]);
    assert Select(s1, WithAliveFlag(code, true)) == Select(s, WithAliveFlag(code, true));
    if CountBallot(s1.votes, key, true) >= |Without(Select(s1, WithAliveFlag(code, true)), acc)| {
      FinalVerdict(s1, code, key, d);
    }
  }

  /** `submitFinalVote` keeps at most one vote per (round, voter, isFinalVote). */
  lemma FinalVotesStayUnique(s: Store, code: Code, voter: PlayerId, decision: Option<string>, d: RoundDraw)
    requires UniqueVotes(s.votes)
    ensures UniqueVotes(SubmitFinalVote(s, code, voter, decision, d).votes)
  {
    if SubmitFinalVoteBody(s, code, voter, decision, d).err.None? {
      FinalVoteOutcome(s, code, voter, decision, d);
      var key := CurrentKey(s, code).value;
      NewVoteUnique(s.votes, Vote(key, voter, s.rounds[key].accusedPlayerId.value, true, decision));
    }
  }

  /** `startVoting` moves DESC_COMPLETE to VOTE and refuses every other phase. */
  lemma StartVotingGuard(s: Store, code: Code)
    ensures StartVotingBody(s, code).err.None? <==>
      code in s.rooms && CurrentKey(s, code).Some? && s.rounds[CurrentKey(s, code).value].state == DESC_COMPLETE
    ensures StartVotingBody(s, code).err.None? ==>
      var key := CurrentKey(s, code).value;
      StartVoting(s, code).rounds == s.rounds[key := s.rounds[key].(state := VOTE)] &&
      StartVoting(s, code).events == s.events + [RoundStateChanged(code, VOTE)]
    ensures StartVotingBody(s, code).err.Some? ==> StartVoting(s, code) == s
  {
  }

  /** `proceedNextRound` needs a host and an ended round, then advances. */
  lemma ProceedNextRoundGuard(s: Store, code: Code, host: PlayerId, d: RoundDraw)
    ensures ProceedNextRoundBody(s, code, host, d).err.None? <==>
      code in s.rooms && host in s.players && s.players[host].isHost && CurrentKey(s, code).Some? &&
      s.rounds[CurrentKey(s, code).value].state == RoundState.END
    ensures ProceedNextRoundBody(s, code, host, d).err.None? ==>
      ProceedNextRound(s, code, host, d) == ProceedToNextRound(s, code, d)
    ensures ProceedNextRoundBody(s, code, host, d).err.Some? ==> ProceedNextRound(s, code, host, d) == s
  {
  }
}
