/**
 * The counting rules of the two ballots.
 *
 * Initial ballot: the per-target rows are sorted by count, highest first
 * (a stable sort, so equal counts keep their query order); the first row
 * reaching a majority of the alive players is accused; failing that, the
 * top row is accused when it has at least two votes and no other row ties
 * it. Final ballot: the accused is eliminated on a majority of those
 * eligible (judged after the final vote of the initial ballot path), or on
 * more ELIMINATE than SURVIVE decisions (the final-vote path).
 */
module Tally {
  import opened Wrappers
  import opened Entities
  import opened Store
  import opened VoteRepository

  predicate Descending(cs: seq<TargetCount>) {
    forall i, j :: 0 <= i < j < |cs| ==> cs[i].count >= cs[j].count
  }

  /** The highest count among the rows, 0 when there are none. */
  function MaxCount(cs: seq<TargetCount>): (top: nat)
    ensures forall i :: 0 <= i < |cs| ==> cs[i].count <= top
    ensures cs != [] ==> exists i :: 0 <= i < |cs| && cs[i].count == top
  {
    if cs == [] then 0
    else
      var rest := MaxCount(cs[..|cs| - 1]);
      var last := cs[|cs| - 1].count;
      if last > rest then last else rest
  }

  /** The position of the first row holding the highest count. */
  function FirstMax(cs: seq<TargetCount>): (k: nat)
    requires cs != []
    ensures k < |cs| && cs[k].count == MaxCount(cs)
    ensures forall i :: 0 <= i < k ==> cs[i].count < MaxCount(cs)
  {
    if |cs| == 1 then 0
    else
      var init := cs[..|cs| - 1];
      if cs[|cs| - 1].count > MaxCount(init) then |cs| - 1 else FirstMax(init)
  }

  /** The number of rows with exactly `n` votes. */
  function CountWith(cs: seq<TargetCount>, n: nat): (r: nat)
    ensures r <= |cs|
  {
    if cs == [] then 0
    else CountWith(cs[..|cs| - 1], n) + (if cs[|cs| - 1].count == n then 1 else 0)
  }

  /** Places `x` after every row whose count is at least its own. */
  function Insert(s: seq<TargetCount>, x: TargetCount): (r: seq<TargetCount>)
    ensures |r| == |s| + 1
    ensures multiset(r) == multiset(s) + multiset{x}
    ensures r[0] == if s == [] || x.count > s[0].count then x else s[0]
  {
    if s == [] then [x]
    else if s[0].count >= x.count then
      assert s == [s[0]] + s[1..];
      [s[0]] + Insert(s[1..], x)
    else [x] + s
  }

  lemma {:induction false} InsertKeepsDescending(s: seq<TargetCount>, x: TargetCount)
    requires Descending(s)
    ensures Descending(Insert(s, x))
  {
    if s != [] && s[0].count >= x.count {
      InsertKeepsDescending(s[1..], x);
      var rest := Insert(s[1..], x);
      forall i | 0 <= i < |rest| ensures rest[i].count <= s[0].count {
        assert rest[i] in multiset(s[1..]) + multiset{x};
        if rest[i] != x {
          var k :| 0 <= k < |s[1..]| && s[1..][k] == rest[i];
          assert s[k + 1] == rest[i];
        }
      }
    }
  }

  /** The stable descending sort the initial ballot applies to its rows. */
  function SortDesc(cs: seq<TargetCount>): (r: seq<TargetCount>)
    ensures Descending(r)
    ensures multiset(r) == multiset(cs) && |r| == |cs|
    ensures cs != [] ==> r[0] == cs[FirstMax(cs)]
  {
    if cs == [] then []
    else
      var init := cs[..|cs| - 1];
      assert cs == init + [cs[|cs| - 1]];
      var rest := SortDesc(init);
      HeadIsMax(init, rest);
      InsertKeepsDescending(rest, cs[|cs| - 1]);
      Insert(rest, cs[|cs| - 1])
  }

  /** The head of a descending reordering holds the highest count. */
  lemma HeadIsMax(cs: seq<TargetCount>, sorted: seq<TargetCount>)
    requires Descending(sorted) && multiset(sorted) == multiset(cs)
    ensures cs != [] ==> sorted != [] && sorted[0].count == MaxCount(cs)
  {
    if cs != [] {
      assert cs[0] in multiset(sorted);
      assert sorted[0] in multiset(cs);
      var k :| 0 <= k < |cs| && cs[k].count == MaxCount(cs);
      assert cs[k] in multiset(sorted);
    }
  }

  /** The first row with at least `n` votes, if any. */
  function FirstAtLeast(cs: seq<TargetCount>, n: nat): (r: Option<TargetCount>)
    ensures r.Some? ==> r.value in cs && r.value.count >= n
    ensures r.None? <==> forall i :: 0 <= i < |cs| ==> cs[i].count < n
    ensures Descending(cs) && cs != [] && r.Some? ==> r.value == cs[0]
  {
    if cs == [] then None
    else if cs[0].count >= n then Some(cs[0])
    else
      var r := FirstAtLeast(cs[1..], n);
      assert forall i :: 1 <= i < |cs| ==> cs[i] == cs[1..][i - 1];
      r
  }

  /** The majority needed among `alive` players: `alive / 2 + 1`. */
  function Required(alive: nat): nat {
    alive / 2 + 1
  }

  /** The outcome of the initial ballot, computed the way the service computes it. */
  function InitialOutcome(cs: seq<TargetCount>, alive: nat): VoteOutcome {
    if cs == [] then NoVotes
    else
      var sorted := SortDesc(cs);
      var majority := FirstAtLeast(sorted, Required(alive));
      if majority.Some? then AccusedBy(majority.value.target)
      else
        var top := sorted[0].count;
        if top >= 2 && CountWith(sorted, top) == 1 then AccusedBy(sorted[0].target) else NoMajority
  }

  lemma {:induction false} CountWithMultiset(a: seq<TargetCount>, b: seq<TargetCount>, n: nat)
    requires multiset(a) == multiset(b)
    ensures CountWith(a, n) == CountWith(b, n)
    decreases |a|
  {
    if a != [] {
      var x := a[|a| - 1];
      assert a == a[..|a| - 1] + [x];
      assert x in multiset(b);
      var k :| 0 <= k < |b| && b[k] == x;
      var b' := b[..k] + b[k + 1..];
      assert b == b[..k] + [x] + b[k + 1..];
      assert multiset(b') == multiset(b[..k]) + multiset(b[k + 1..]);
      assert multiset(a[..|a| - 1]) == multiset(a) - multiset{x};
      assert multiset(b') == multiset(b) - multiset{x};
      CountWithMultiset(a[..|a| - 1], b', n);
      CountWithRemove(b, k, n);
    }
  }

  lemma {:induction false} CountWithRemove(b: seq<TargetCount>, k: nat, n: nat)
    requires k < |b|
    ensures CountWith(b, n) == CountWith(b[..k] + b[k + 1..], n) + (if b[k].count == n then 1 else 0)
    decreases |b|
  {
    if k < |b| - 1 {
      var init := b[..|b| - 1];
      CountWithRemove(init, k, n);
      assert init[..k] + init[k + 1..] == (b[..k] + b[k + 1..])[..|b| - 2];
    } else {
      assert b[..k] + b[k + 1..] == b[..|b| - 1];
    }
  }

  /**
   * The rule as a closed form: with `top` the highest count and `lead` the
   * first row holding it, `lead` is accused when `top` is a majority of the
   * alive players, or when `top` is at least two and no other row has it.
   */
  lemma InitialOutcomeRule(cs: seq<TargetCount>, alive: nat)
    requires cs != []
    ensures var top := MaxCount(cs);
      InitialOutcome(cs, alive) ==
        if top >= Required(alive) || (top >= 2 && CountWith(cs, top) == 1)
        then AccusedBy(cs[FirstMax(cs)].target) else NoMajority
  {
    var sorted := SortDesc(cs);
    assert sorted[0].count == MaxCount(cs);
    CountWithMultiset(sorted, cs, MaxCount(cs));
  }

  // Three instances of InitialOutcomeRule on two-row ballots.

  /** A tie at the top below the majority accuses nobody (3 against 3 among at least 6 alive). */
  lemma TieAtTopAccusesNobody(a: PlayerId, b: PlayerId, alive: nat)
    requires a != b && alive >= 6
    ensures InitialOutcome([TargetCount(a, 3), TargetCount(b, 3)], alive) == NoMajority
  {
    var cs := [TargetCount(a, 3), TargetCount(b, 3)];
    InitialOutcomeRule(cs, alive);
    assert CountWith(cs, 3) == 2 by {
      assert cs[..1] == [TargetCount(a, 3)];
    }
  }

  /** A lone leader with two votes is accused even without a majority (3 against 2 among 7 alive). */
  lemma PluralityAccuses(a: PlayerId, b: PlayerId)
    requires a != b
    ensures InitialOutcome([TargetCount(b, 2), TargetCount(a, 3)], 7) == AccusedBy(a)
  {
    var cs := [TargetCount(b, 2), TargetCount(a, 3)];
    InitialOutcomeRule(cs, 7);
    assert cs[..1] == [TargetCount(b, 2)];
  }

  /** A single vote never accuses unless it is a majority. */
  lemma SingleVotesAccuseNobody(a: PlayerId, b: PlayerId, alive: nat)
    requires a != b && alive >= 2
    ensures InitialOutcome([TargetCount(a, 1), TargetCount(b, 1)], alive) == NoMajority
  {
    InitialOutcomeRule([TargetCount(a, 1), TargetCount(b, 1)], alive);
  }

  /** No votes, no accusation: the ballot reports no_votes. */
  lemma EmptyBallotHasNoVotes(alive: nat)
    ensures InitialOutcome([], alive) == NoVotes
  {
  }

  /**
   * When the ballot has no more votes than alive players, at most one row
   * can reach the majority, so the accused does not depend on row order.
   */
  lemma {:induction false} MajorityIsUnique(cs: seq<TargetCount>, alive: nat, i: nat, j: nat)
    requires SumCounts(cs) <= alive
    requires i < j < |cs|
    ensures !(cs[i].count >= Required(alive) && cs[j].count >= Required(alive))
  {
    TwoRowsBelowSum(cs, i, j);
  }

  lemma {:induction false} TwoRowsBelowSum(cs: seq<TargetCount>, i: nat, j: nat)
    requires i < j < |cs|
    ensures cs[i].count + cs[j].count <= SumCounts(cs)
  {
    var init := cs[..|cs| - 1];
    if j < |cs| - 1 {
      TwoRowsBelowSum(init, i, j);
    } else {
      RowBelowSum(init, i);
    }
  }

  lemma {:induction false} RowBelowSum(cs: seq<TargetCount>, i: nat)
    requires i < |cs|
    ensures cs[i].count <= SumCounts(cs)
  {
    if i < |cs| - 1 {
      RowBelowSum(cs[..|cs| - 1], i);
    }
  }

  /** Java's `/` by 2, which truncates toward zero. */
  function JavaHalf(a: int): (r: int)
    ensures a >= 0 ==> 0 <= a - 2 * r <= 1
    ensures a < 0 ==> 0 <= 2 * r - a <= 1
  {
    if a >= 0 then a / 2 else -((-a) / 2)
  }

  /** ELIMINATE votes needed after the last final vote: a majority of the alive players other than the accused. */
  function RequiredToEliminate(alive: nat): int {
    JavaHalf(alive - 1) + 1
  }

  /**
   * The threshold is the least strict majority of the voters other than
   * the accused; with nobody alive, Java's truncating division still asks
   * for one vote.
   */
  lemma RequiredToEliminateIsMajority(alive: nat)
    ensures alive == 0 ==> RequiredToEliminate(alive) == 1
    ensures alive >= 1 ==>
      2 * RequiredToEliminate(alive) > alive - 1 && 2 * (RequiredToEliminate(alive) - 1) <= alive - 1
  {
  }

  /** The loop that tallies a final ballot's decisions. */
  method TallyDecisions(vs: seq<Vote>) returns (eliminate: nat, survive: nat)
    ensures eliminate == CountDecision(vs, Eliminate) && survive == CountDecision(vs, Survive)
    ensures eliminate + survive <= |vs|
  {
    eliminate, survive := 0, 0;
    var i := 0;
    while i < |vs|
      invariant 0 <= i <= |vs|
      invariant eliminate == CountDecision(vs[..i], Eliminate)
      invariant survive == CountDecision(vs[..i], Survive)
    {
      assert vs[..i + 1][..i] == vs[..i];
      if vs[i].decision == Some(Eliminate) {
        eliminate := eliminate + 1;
      } else if vs[i].decision == Some(Survive) {
        survive := survive + 1;
      }
      i := i + 1;
    }
    assert vs[..i] == vs;
    DecisionsFitBallot(vs);
  }
}
