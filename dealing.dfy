/**
 * The loops both services run when they deal a round: the library
 * shuffle on a list of players, and the passes that set roles, words
 * and speaking order player by player in the player table. Each is
 * proved against its function in Roles.
 */
module Dealing {
  import opened Wrappers
  import opened Entities
  import opened Store
  import opened Roles

  /** `Collections.shuffle`: for i from the size down to 2, swap i-1 with a draw below i. */
  method ShuffleList(s: seq<PlayerId>, draws: seq<nat>) returns (r: seq<PlayerId>)
    ensures r == Shuffle(s, draws)
  {
    r := s;
    var i := |s|;
    var k := 0;
    while i > 1
      invariant 0 <= i <= |r| == |s|
      invariant ShuffleFrom(r, draws, i, k) == ShuffleFrom(s, draws, |s|, 0)
      decreases i
    {
      var j := Pick(draws, k, i);
      var tmp := r[i - 1];
      r := r[i - 1 := r[j]];
      r := r[j := tmp];
      i, k := i - 1, k + 1;
    }
  }

  /** Makes each listed player a citizen holding `word`, in list order. */
  method MakeCitizensIn(db: Db, ids: seq<PlayerId>, word: string)
    requires forall id :: id in ids ==> id in db.players
    modifies db
    ensures db.State() == old(db.State()).(players := MakeCitizens(old(db.players), ids, word))
  {
    var i := 0;
    while i < |ids|
      invariant 0 <= i <= |ids|
      invariant db.players.Keys == old(db.players).Keys
      invariant MakeCitizens(db.players, ids[i..], word) == MakeCitizens(old(db.players), ids, word)
      invariant db.State() == old(db.State()).(players := db.players)
    {
      var id := ids[i];
      assert ids[i..][1..] == ids[i + 1..];
      db.players := db.players[id := AsCitizen(db.players[id], word)];
      i := i + 1;
    }
  }

  /** Makes one player the liar, without a word. */
  method MakeLiarIn(db: Db, id: PlayerId)
    requires id in db.players
    modifies db
    ensures db.State() == old(db.State()).(players := old(db.players)[id := AsLiar(old(db.players)[id])])
  {
    db.players := db.players[id := AsLiar(db.players[id])];
  }

  /** `players.get(i).setOrderNo(i + 1)` for every i. */
  method NumberIn(db: Db, ids: seq<PlayerId>)
    requires forall id :: id in ids ==> id in db.players
    requires Distinct(ids)
    modifies db
    ensures db.State() == old(db.State()).(players := Number(old(db.players), ids, 1))
  {
    var i := 0;
    while i < |ids|
      invariant 0 <= i <= |ids|
      invariant db.players.Keys == old(db.players).Keys
      invariant Distinct(ids[i..])
      invariant Number(db.players, ids[i..], i + 1) == Number(old(db.players), ids, 1)
      invariant db.State() == old(db.State()).(players := db.players)
    {
      var id := ids[i];
      assert ids[i..][1..] == ids[i + 1..];
      db.players := db.players[id := db.players[id].(orderNo := Some(i + 1))];
      i := i + 1;
    }
  }
}
