/**
 * Dealing a round: shuffling the players, choosing the citizen word,
 * naming one liar and numbering the speaking order. Both services deal
 * the same way; they differ only in how the liar is singled out.
 *
 * The shuffle is the library's Fisher–Yates pass: for i from the list's
 * length down to 2 it swaps position i-1 with a drawn position below i.
 * The draws and the word choice are supplied by the caller.
 */
module Roles {
  import opened Wrappers
  import opened Entities

  /** The random choices one dealing consumes. */
  datatype RoundDraw = RoundDraw(roleDraws: seq<nat>, pickWordA: bool, orderDraws: seq<nat>)

  /** The k-th draw, reduced below `bound`; a missing draw reads as 0. */
  function Pick(draws: seq<nat>, k: nat, bound: nat): (r: nat)
    requires bound > 0
    ensures r < bound
  {
    if k < |draws| then draws[k] % bound else 0
  }

  function Swap(s: seq<PlayerId>, i: nat, j: nat): (r: seq<PlayerId>)
    requires i < |s| && j < |s|
    ensures |r| == |s| && multiset(r) == multiset(s)
    ensures r[i] == s[j] && r[j] == s[i]
    ensures forall k :: 0 <= k < |s| && k != i && k != j ==> r[k] == s[k]
  {
    s[i := s[j]][j := s[i]]
  }

  lemma SwapKeepsDistinct(s: seq<PlayerId>, i: nat, j: nat)
    requires i < |s| && j < |s|
    ensures Distinct(s) ==> Distinct(Swap(s, i, j))
  {
    if !Distinct(s) { return; }
    var r := Swap(s, i, j);
    forall p, q | 0 <= p < q < |r| ensures r[p] != r[q] {
      var p' := if p == i then j else if p == j then i else p;
      var q' := if q == i then j else if q == j then i else q;
      assert r[p] == s[p'] && r[q] == s[q'] && p' != q';
    }
  }

  /** The passes of the shuffle from position `i` down, the k-th draw first. */
  function ShuffleFrom(s: seq<PlayerId>, draws: seq<nat>, i: nat, k: nat): (r: seq<PlayerId>)
    requires i <= |s|
    ensures |r| == |s| && multiset(r) == multiset(s)
    ensures Distinct(s) ==> Distinct(r)
    decreases i
  {
    if i <= 1 then s
    else
      var j := Pick(draws, k, i);
      SwapKeepsDistinct(s, i - 1, j);
      ShuffleFrom(Swap(s, i - 1, j), draws, i - 1, k + 1)
  }

  /** `Collections.shuffle`: a permutation of its argument. */
  function Shuffle(s: seq<PlayerId>, draws: seq<nat>): (r: seq<PlayerId>)
    ensures |r| == |s| && multiset(r) == multiset(s)
    ensures forall x :: x in r <==> x in s
    ensures Distinct(s) ==> Distinct(r)
  {
    var r := ShuffleFrom(s, draws, |s|, 0);
    assert forall x :: x in r <==> x in multiset(r);
    r
  }

  /** `Math.random() > 0.5 ? wordA : wordB`. */
  function CitizenWord(theme: Theme, d: RoundDraw): (w: string)
    ensures w == theme.wordA || w == theme.wordB
  {
    if d.pickWordA then theme.wordA else theme.wordB
  }

  function AsCitizen(p: Player, word: string): Player {
    p.(role := CITIZEN, cardWord := Some(word))
  }

  function AsLiar(p: Player): Player {
    p.(role := LIAR, cardWord := None)
  }

  /** Every listed player becomes a citizen holding `word`, one after the other. */
  function MakeCitizens(m: map<PlayerId, Player>, ids: seq<PlayerId>, word: string): (r: map<PlayerId, Player>)
    requires forall id :: id in ids ==> id in m
    ensures r.Keys == m.Keys
    ensures forall id :: id in r ==> r[id] == if id in ids then AsCitizen(m[id], word) else m[id]
  {
    if ids == [] then m
    else MakeCitizens(m[ids[0] := AsCitizen(m[ids[0]], word)], ids[1..], word)
  }

  /** The listed players get orderNo k, k+1, … in list order. */
  function Number(m: map<PlayerId, Player>, ids: seq<PlayerId>, k: int): (r: map<PlayerId, Player>)
    requires forall id :: id in ids ==> id in m
    requires Distinct(ids)
    ensures r.Keys == m.Keys
    ensures forall i :: 0 <= i < |ids| ==> r[ids[i]] == m[ids[i]].(orderNo := Some(k + i))
    ensures forall id :: id in m && id !in ids ==> r[id] == m[id]
  {
    if ids == [] then m
    else
      var rest := Number(m[ids[0] := m[ids[0]].(orderNo := Some(k))], ids[1..], k + 1);
      assert forall i :: 1 <= i < |ids| ==> ids[i] == ids[1..][i - 1];
      rest
  }

  /**
   * GamePlayService's dealing: all players become citizens with the word,
   * then the first of the shuffled list becomes the liar; a second shuffle
   * fixes the speaking order.
   */
  function Reassign(m: map<PlayerId, Player>, alive: seq<PlayerId>, theme: Theme, d: RoundDraw): map<PlayerId, Player>
    requires forall id :: id in alive ==> id in m
    requires Distinct(alive)
  {
    var order := Shuffle(alive, d.roleDraws);
    var m1 := MakeCitizens(m, order, CitizenWord(theme, d));
    var m2 := if |order| > 0 then m1[order[0] := AsLiar(m1[order[0]])] else m1;
    Number(m2, Shuffle(order, d.orderDraws), 1)
  }

  /**
   * GameRoomService's dealing: the first of the shuffled list is the liar,
   * every later one a citizen with the word; a second shuffle fixes the
   * speaking order. The list must not be empty.
   */
  function Assign(m: map<PlayerId, Player>, alive: seq<PlayerId>, theme: Theme, d: RoundDraw): map<PlayerId, Player>
    requires forall id :: id in alive ==> id in m
    requires Distinct(alive) && |alive| > 0
  {
    var order := Shuffle(alive, d.roleDraws);
    var m1 := m[order[0] := AsLiar(m[order[0]])];
    var m2 := MakeCitizens(m1, order[1..], CitizenWord(theme, d));
    Number(m2, Shuffle(order, d.orderDraws), 1)
  }

  /** Fields a dealing never touches. */
  predicate SameIdentity(p: Player, q: Player) {
    p.id == q.id && p.roomCode == q.roomCode && p.nickname == q.nickname &&
    p.isHost == q.isHost && p.isAlive == q.isAlive && p.hasLeft == q.hasLeft
  }

  /** orderNo over `ids` runs through 1..|ids| one-to-one. */
  ghost predicate OrderIsPermutation(m: map<PlayerId, Player>, ids: seq<PlayerId>) {
    (forall id :: id in ids ==>
       id in m && m[id].orderNo.Some? && 1 <= m[id].orderNo.value <= |ids|) &&
    (forall a, b :: a in ids && b in ids && a != b ==> m[a].orderNo != m[b].orderNo) &&
    (forall n :: 1 <= n <= |ids| ==> exists id :: id in ids && m[id].orderNo == Some(n))
  }

  /** The liar of `ids` has no word, and every other one is a citizen holding `w`. */
  ghost predicate OneLiar(m: map<PlayerId, Player>, ids: seq<PlayerId>, liar: PlayerId, w: string) {
    liar in ids && liar in m && m[liar].cardWord == None &&
    forall id :: id in ids ==>
      id in m && (m[id].role == LIAR <==> id == liar) && (id != liar ==> m[id].cardWord == Some(w))
  }

  /**
   * The outcome of dealing `alive` from `m0` into `m`, with `liar` singled out:
   * the liar has no word, everyone else listed is a citizen with one common
   * theme word, orderNo runs over 1..n one-to-one, and nobody else changes.
   */
  ghost predicate Dealt(m0: map<PlayerId, Player>, m: map<PlayerId, Player>, alive: seq<PlayerId>, theme: Theme, liar: PlayerId) {
    m.Keys == m0.Keys &&
    (forall id :: id in m0 && id !in alive ==> m[id] == m0[id]) &&
    (forall id :: id in alive ==> id in m && id in m0 && SameIdentity(m[id], m0[id])) &&
    (exists w :: (w == theme.wordA || w == theme.wordB) && OneLiar(m, alive, liar, w)) &&
    OrderIsPermutation(m, alive)
  }

  /** Numbering a reordering `sp` of `ids` numbers `ids` one-to-one and changes nothing else. */
  lemma NumberIsOneToOne(m2: map<PlayerId, Player>, sp: seq<PlayerId>, ids: seq<PlayerId>)
    requires forall id :: id in sp ==> id in m2
    requires Distinct(sp) && |sp| == |ids|
    requires forall x :: x in sp <==> x in ids
    ensures OrderIsPermutation(Number(m2, sp, 1), ids)
    ensures forall id :: id in ids ==> Number(m2, sp, 1)[id] == m2[id].(orderNo := Number(m2, sp, 1)[id].orderNo)
  {
    var m := Number(m2, sp, 1);
    forall id | id in ids
      ensures id in m && m[id].orderNo.Some? && 1 <= m[id].orderNo.value <= |ids|
      ensures m[id] == m2[id].(orderNo := m[id].orderNo)
    {
      var i :| 0 <= i < |sp| && sp[i] == id;
      assert m[sp[i]] == m2[sp[i]].(orderNo := Some(1 + i));
    }
    NumberingInjective(m, sp, ids);
    forall n | 1 <= n <= |ids| ensures exists id :: id in ids && m[id].orderNo == Some(n) {
      assert sp[n - 1] in ids && m[sp[n - 1]].orderNo == Some(n);
    }
  }

  /** Position i of `sp` holds number 1 + i. */
  predicate NumberedInOrder(m: map<PlayerId, Player>, sp: seq<PlayerId>) {
    forall i :: 0 <= i < |sp| ==> sp[i] in m && m[sp[i]].orderNo == Some(1 + i)
  }

  lemma NumberingInjective(m: map<PlayerId, Player>, sp: seq<PlayerId>, ids: seq<PlayerId>)
    requires NumberedInOrder(m, sp)
    requires forall x :: x in sp <==> x in ids
    ensures forall a, b :: a in ids && b in ids && a != b ==> m[a].orderNo != m[b].orderNo
  {
    forall a, b | a in ids && b in ids && a != b ensures m[a].orderNo != m[b].orderNo {
      var i :| 0 <= i < |sp| && sp[i] == a;
      var j :| 0 <= j < |sp| && sp[j] == b;
    }
  }

  /** What every dealing establishes, player by player, gives `Dealt`. */
  lemma DealtIntro(m0: map<PlayerId, Player>, r: map<PlayerId, Player>, alive: seq<PlayerId>,
                   theme: Theme, liar: PlayerId, w: string)
    requires w == theme.wordA || w == theme.wordB
    requires r.Keys == m0.Keys && liar in alive
    requires forall id :: id in m0 && id !in alive ==> r[id] == m0[id]
    requires forall id :: id in alive ==>
      id in m0 && r[id] == (if id == liar then AsLiar(m0[id]) else AsCitizen(m0[id], w)).(orderNo := r[id].orderNo)
    requires OrderIsPermutation(r, alive)
    ensures Dealt(m0, r, alive, theme, liar)
  {
    forall id | id in alive
      ensures id in r && SameIdentity(r[id], m0[id])
      ensures (r[id].role == LIAR <==> id == liar) && (id != liar ==> r[id].cardWord == Some(w))
    {
      assert id in m0;
    }
    assert OneLiar(r, alive, liar, w);
  }

  /** The cards before numbering: the liar's, the citizens' and everyone else's. */
  ghost predicate Carded(m0: map<PlayerId, Player>, m2: map<PlayerId, Player>, alive: seq<PlayerId>,
                         liar: PlayerId, w: string) {
    m2.Keys == m0.Keys &&
    forall id :: id in m0 ==>
      m2[id] == if id == liar then AsLiar(m0[id]) else if id in alive then AsCitizen(m0[id], w) else m0[id]
  }

  /** Numbering a reordering of the carded players completes a dealing. */
  lemma DealtFromCards(m0: map<PlayerId, Player>, m2: map<PlayerId, Player>, sp: seq<PlayerId>,
                       alive: seq<PlayerId>, theme: Theme, liar: PlayerId, w: string)
    requires w == theme.wordA || w == theme.wordB
    requires liar in alive && forall id :: id in alive ==> id in m0
    requires Carded(m0, m2, alive, liar, w)
    requires Distinct(sp) && |sp| == |alive| && forall x :: x in sp <==> x in alive
    ensures Dealt(m0, Number(m2, sp, 1), alive, theme, liar)
  {
    NumberIsOneToOne(m2, sp, alive);
    DealtIntro(m0, Number(m2, sp, 1), alive, theme, liar, w);
  }

  lemma CitizensThenLiar(m: map<PlayerId, Player>, order: seq<PlayerId>, w: string)
    requires |order| > 0 && forall id :: id in order ==> id in m
    ensures var m1 := MakeCitizens(m, order, w);
      Carded(m, m1[order[0] := AsLiar(m1[order[0]])], order, order[0], w)
  {
  }

  lemma LiarThenCitizens(m: map<PlayerId, Player>, order: seq<PlayerId>, w: string)
    requires |order| > 0 && Distinct(order) && forall id :: id in order ==> id in m
    ensures var m1 := m[order[0] := AsLiar(m[order[0]])];
      Carded(m, MakeCitizens(m1, order[1..], w), order, order[0], w)
  {
    TailOfDistinct(order);
  }

  /** GamePlayService's dealing of a non-empty list deals it, with the first shuffled player as liar. */
  lemma ReassignDeals(m: map<PlayerId, Player>, alive: seq<PlayerId>, theme: Theme, d: RoundDraw)
    returns (liar: PlayerId)
    requires forall id :: id in alive ==> id in m
    requires Distinct(alive) && |alive| > 0
    ensures liar == Shuffle(alive, d.roleDraws)[0]
    ensures Dealt(m, Reassign(m, alive, theme, d), alive, theme, liar)
  {
    var order := Shuffle(alive, d.roleDraws);
    liar := order[0];
    var w := CitizenWord(theme, d);
    CitizensThenLiar(m, order, w);
    var m1 := MakeCitizens(m, order, w);
    var m2 := m1[liar := AsLiar(m1[liar])];
    assert Carded(m, m2, alive, liar, w);
    DealtFromCards(m, m2, Shuffle(order, d.orderDraws), alive, theme, liar, w);
  }

  /** An empty list leaves every player as it was. */
  lemma ReassignNobody(m: map<PlayerId, Player>, theme: Theme, d: RoundDraw)
    ensures Reassign(m, [], theme, d) == m
  {
  }

  /** The shuffled list without its head: every element but the liar. */
  lemma TailOfDistinct(order: seq<PlayerId>)
    requires Distinct(order) && |order| > 0
    ensures forall id :: id in order[1..] <==> id in order && id != order[0]
  {
    forall id ensures id in order[1..] <==> id in order && id != order[0] {
      if id in order && id != order[0] {
        var i :| 0 <= i < |order| && order[i] == id;
        assert order[1..][i - 1] == id;
      }
      if id in order[1..] {
        var i :| 0 <= i < |order[1..]| && order[1..][i] == id;
        assert order[i + 1] == id;
      }
    }
  }

  /** GameRoomService's dealing deals the list, with the first shuffled player as liar. */
  lemma AssignDeals(m: map<PlayerId, Player>, alive: seq<PlayerId>, theme: Theme, d: RoundDraw)
    returns (liar: PlayerId)
    requires forall id :: id in alive ==> id in m
    requires Distinct(alive) && |alive| > 0
    ensures liar == Shuffle(alive, d.roleDraws)[0]
    ensures Dealt(m, Assign(m, alive, theme, d), alive, theme, liar)
  {
    var order := Shuffle(alive, d.roleDraws);
    liar := order[0];
    var w := CitizenWord(theme, d);
    LiarThenCitizens(m, order, w);
    var m2 := MakeCitizens(m[liar := AsLiar(m[liar])], order[1..], w);
    assert Carded(m, m2, alive, liar, w);
    DealtFromCards(m, m2, Shuffle(order, d.orderDraws), alive, theme, liar, w);
  }
}
