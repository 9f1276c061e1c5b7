/**
 * The vote queries: a ballot is the votes of one round with one value of
 * isFinalVote, in insertion order; counts group a ballot by target.
 */
module VoteRepository {
  import opened Wrappers
  import opened Entities

  /** `findByRoundAndIsFinalVote` / `findByRoundRoundIdAndIsFinalVote`. */
  function Ballot(votes: seq<Vote>, round: RoundKey, isFinal: bool): (r: seq<Vote>)
    ensures forall v :: v in r <==> v in votes && v.round == round && v.isFinalVote == isFinal
    ensures |r| <= |votes|
  {
    if votes == [] then []
    else
      var init := votes[..|votes| - 1];
      var v := votes[|votes| - 1];
      assert votes == init + [v];
      var rest := Ballot(init, round, isFinal);
      if v.round == round && v.isFinalVote == isFinal then rest + [v] else rest
  }

  /** A round no vote points at has an empty ballot of either kind. */
  lemma NoBallotFor(votes: seq<Vote>, round: RoundKey, isFinal: bool)
    requires forall v :: v in votes ==> v.round != round
    ensures Ballot(votes, round, isFinal) == []
  {
  }

  /** `countVotesByRoundIdAndIsFinalVote` / `countByRoundAndIsFinalVote`. */
  function CountBallot(votes: seq<Vote>, round: RoundKey, isFinal: bool): nat {
    |Ballot(votes, round, isFinal)|
  }

  /** `existsByRoundRoundIdAndVoterPlayerIdAndIsFinalVote`, keyed by the unique constraint. */
  predicate HasVoted(votes: seq<Vote>, round: RoundKey, voter: PlayerId, isFinal: bool) {
    exists i :: 0 <= i < |votes| && VoteKeyOf(votes[i]) == (round, voter, isFinal)
  }

  /** A vote added to one ballot leaves the other ballot unchanged. */
  lemma BallotsAreSeparate(votes: seq<Vote>, v: Vote, round: RoundKey, isFinal: bool)
    requires v.isFinalVote != isFinal
    ensures Ballot(votes + [v], round, isFinal) == Ballot(votes, round, isFinal)
    ensures CountBallot(votes + [v], round, !isFinal) ==
      CountBallot(votes, round, !isFinal) + (if v.round == round then 1 else 0)
  {
    assert (votes + [v])[..|votes + [v]| - 1] == votes;
  }

  /** The number of votes in `vs` for `target`. */
  function CountFor(vs: seq<Vote>, target: PlayerId): (n: nat)
    ensures n <= |vs|
    ensures n == 0 <==> forall v :: v in vs ==> v.target != target
  {
    if vs == [] then 0
    else
      var init := vs[..|vs| - 1];
      assert vs == init + [vs[|vs| - 1]];
      CountFor(init, target) + (if vs[|vs| - 1].target == target then 1 else 0)
  }

  /** The targets of `vs`, each once, in order of first appearance. */
  function Targets(vs: seq<Vote>): (ts: seq<PlayerId>)
    ensures forall t :: t in ts <==> exists v :: v in vs && v.target == t
    ensures Distinct(ts)
  {
    if vs == [] then []
    else
      var init := vs[..|vs| - 1];
      var v := vs[|vs| - 1];
      assert vs == init + [v];
      var rest := Targets(init);
      if v.target in rest then rest else rest + [v.target]
  }

  datatype TargetCount = TargetCount(target: PlayerId, count: nat)

  /** `countVotesByTargetAndRoundId` over one ballot: one row per target, with its count. */
  function CountByTarget(vs: seq<Vote>): (cs: seq<TargetCount>)
    ensures |cs| == |Targets(vs)|
    ensures forall i :: 0 <= i < |cs| ==> cs[i].target == Targets(vs)[i] && cs[i].count == CountFor(vs, cs[i].target)
    ensures forall i :: 0 <= i < |cs| ==> cs[i].count > 0
  {
    var ts := Targets(vs);
    assert forall i :: 0 <= i < |ts| ==> CountFor(vs, ts[i]) > 0 by {
      forall i | 0 <= i < |ts| ensures CountFor(vs, ts[i]) > 0 { assert ts[i] in ts; }
    }
    seq(|ts|, i requires 0 <= i < |ts| => TargetCount(ts[i], CountFor(vs, ts[i])))
  }

  function SumCounts(cs: seq<TargetCount>): nat {
    if cs == [] then 0 else SumCounts(cs[..|cs| - 1]) + cs[|cs| - 1].count
  }

  /** Σ over `ts` of the votes in `vs` for each. */
  function SumFor(ts: seq<PlayerId>, vs: seq<Vote>): nat {
    if ts == [] then 0 else SumFor(ts[..|ts| - 1], vs) + CountFor(vs, ts[|ts| - 1])
  }

  lemma {:induction false} SumForAppendVote(ts: seq<PlayerId>, vs: seq<Vote>, v: Vote)
    requires Distinct(ts)
    ensures SumFor(ts, vs + [v]) == SumFor(ts, vs) + (if v.target in ts then 1 else 0)
  {
    assert (vs + [v])[..|vs + [v]| - 1] == vs;
    if ts != [] {
      var init := ts[..|ts| - 1];
      assert ts == init + [ts[|ts| - 1]];
      SumForAppendVote(init, vs, v);
    }
  }

  lemma {:induction false} SumCountsIsSumFor(vs: seq<Vote>, k: nat)
    requires k <= |Targets(vs)|
    ensures SumCounts(CountByTarget(vs)[..k]) == SumFor(Targets(vs)[..k], vs)
  {
    if k > 0 {
      SumCountsIsSumFor(vs, k - 1);
      assert CountByTarget(vs)[..k][..k - 1] == CountByTarget(vs)[..k - 1];
      assert Targets(vs)[..k][..k - 1] == Targets(vs)[..k - 1];
    }
  }

  lemma {:induction false} SumForTargets(vs: seq<Vote>)
    ensures SumFor(Targets(vs), vs) == |vs|
  {
    if vs != [] {
      var init := vs[..|vs| - 1];
      var v := vs[|vs| - 1];
      assert vs == init + [v];
      SumForTargets(init);
      var ts := Targets(init);
      SumForAppendVote(ts, init, v);
      if v.target !in ts {
        var ts' := ts + [v.target];
        assert ts'[..|ts'| - 1] == ts;
        assert CountFor(init, v.target) == 0;
      }
    }
  }

  /** The per-target counts of a ballot add up to its total count. */
  lemma CountsSumToTotal(votes: seq<Vote>, round: RoundKey, isFinal: bool)
    ensures SumCounts(CountByTarget(Ballot(votes, round, isFinal))) == CountBallot(votes, round, isFinal)
  {
    var vs := Ballot(votes, round, isFinal);
    SumCountsIsSumFor(vs, |Targets(vs)|);
    assert CountByTarget(vs)[..|Targets(vs)|] == CountByTarget(vs);
    assert Targets(vs)[..|Targets(vs)|] == Targets(vs);
    SumForTargets(vs);
  }

  /** The number of votes carrying `decision`. */
  function CountDecision(vs: seq<Vote>, decision: string): (n: nat)
    ensures n <= |vs|
  {
    if vs == [] then 0
    else CountDecision(vs[..|vs| - 1], decision) + (if vs[|vs| - 1].decision == Some(decision) then 1 else 0)
  }

  /** A vote cannot carry two decisions, so the two tallies never exceed the ballot. */
  lemma {:induction false} DecisionsFitBallot(vs: seq<Vote>)
    ensures CountDecision(vs, Eliminate) + CountDecision(vs, Survive) <= |vs|
  {
    if vs != [] {
      DecisionsFitBallot(vs[..|vs| - 1]);
    }
  }
}
