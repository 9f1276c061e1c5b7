/**
 * The player queries the services rely on, as functions over the store.
 * A list query returns player ids in ascending order.
 */
module PlayerRepository {
  import opened Entities
  import opened Store

  /** The query methods that return lists of players, by their filter. */
  datatype Query =
    | ActiveIn(code: Code)                  // present: leftAt is null
    | AliveIn(code: Code)                   // present and alive
    | WithAliveFlag(code: Code, alive: bool) // by isAlive only, departed players included
    | WithRole(code: Code, role: PlayerRole) // by role only, departed players included

  predicate Matches(q: Query, p: Player) {
    match q
    case ActiveIn(c) => p.roomCode == c && !p.hasLeft
    case AliveIn(c) => p.roomCode == c && p.isAlive && !p.hasLeft
    case WithAliveFlag(c, a) => p.roomCode == c && p.isAlive == a
    case WithRole(c, r) => p.roomCode == c && p.role == r
  }

  predicate Ascending(ids: seq<PlayerId>) {
    forall i, j :: 0 <= i < j < |ids| ==> ids[i] < ids[j]
  }

  /** The matching players among the ids below `n`, ascending. */
  function SelectBelow(ps: map<PlayerId, Player>, q: Query, n: nat): (ids: seq<PlayerId>)
    ensures forall id :: id in ids <==> id < n && id in ps && Matches(q, ps[id])
    ensures Ascending(ids)
  {
    if n == 0 then []
    else
      var rest := SelectBelow(ps, q, n - 1);
      if n - 1 in ps && Matches(q, ps[n - 1]) then
        assert forall i :: 0 <= i < |rest| ==> rest[i] < n - 1 by {
          forall i | 0 <= i < |rest| ensures rest[i] < n - 1 { assert rest[i] in rest; }
        }
        rest + [n - 1]
      else rest
  }

  /** Every id the store has handed out is below `nextPlayerId`, so this is the whole table. */
  function Select(s: Store, q: Query): (ids: seq<PlayerId>)
    ensures Valid(s) ==> forall id :: id in ids <==> id in s.players && Matches(q, s.players[id])
    ensures Ascending(ids) && Distinct(ids)
    ensures forall id :: id in ids ==> id in s.players && Matches(q, s.players[id])
  {
    SelectBelow(s.players, q, s.nextPlayerId)
  }

  /** `findByRoomCodeAndLeftAtIsNull`. */
  function Active(s: Store, code: Code): seq<PlayerId> {
    Select(s, ActiveIn(code))
  }

  /** `findAlivePlayersByRoomCode`, and `findByRoomCodeAndLeftAtIsNullAndIsAliveTrue`, which filters the same way. */
  function Alive(s: Store, code: Code): seq<PlayerId> {
    Select(s, AliveIn(code))
  }

  /** `existsByRoomCodeAndNicknameAndLeftAtIsNull`. */
  predicate NicknameTaken(s: Store, code: Code, nickname: string) {
    exists id :: id in s.players && Matches(ActiveIn(code), s.players[id]) && s.players[id].nickname == nickname
  }

  /** The result of a query declared to return at most one row. */
  datatype Lookup = Missing | Found(id: PlayerId) | NotUnique

  /** `findByRoomAndRole`: more than one matching row is an error. */
  function FindByRole(s: Store, code: Code, role: PlayerRole): (r: Lookup)
    ensures r.Missing? <==> Select(s, WithRole(code, role)) == []
    ensures r.Found? <==> |Select(s, WithRole(code, role))| == 1
    ensures r.Found? ==> Select(s, WithRole(code, role)) == [r.id]
    ensures r.NotUnique? <==> |Select(s, WithRole(code, role))| > 1
  {
    var ids := Select(s, WithRole(code, role));
    if |ids| == 0 then Missing else if |ids| == 1 then Found(ids[0]) else NotUnique
  }

  /** A player row as saved, carrying its generated id. */
  function WithId(p: Player, id: PlayerId): (q: Player)
    ensures q.id == id && q == p.(id := id)
  {
    p.(id := id)
  }

  /** Row `id` of the table is `p`. */
  predicate HoldsRow(ps: map<PlayerId, Player>, id: PlayerId, p: Player) {
    id in ps && ps[id] == p
  }

  /** `save` of a new player: the generated id is the next free one. */
  function SaveNew(s: Store, p: Player): Store {
    s.(players := s.players[s.nextPlayerId := WithId(p, s.nextPlayerId)], nextPlayerId := s.nextPlayerId + 1)
  }

  /** `saveAll` of new players: they get consecutive ids, in list order. */
  function SaveAll(s: Store, ps: seq<Player>): (t: Store)
    ensures t == s.(players := t.players, nextPlayerId := s.nextPlayerId + |ps|)
    decreases |ps|
  {
    if ps == [] then s else SaveAll(SaveNew(s, ps[0]), ps[1..])
  }

  /**
   * What `saveAll` leaves in the table: the i-th player under the i-th
   * new id, and every row with an id below the first new one as it was.
   */
  lemma {:induction false} SaveAllRows(s: Store, ps: seq<Player>)
    ensures var t := SaveAll(s, ps);
      forall id :: id in t.players <==> id in s.players || s.nextPlayerId <= id < s.nextPlayerId + |ps|
    ensures var t := SaveAll(s, ps);
      forall i :: 0 <= i < |ps| ==> t.players[s.nextPlayerId + i] == WithId(ps[i], s.nextPlayerId + i)
    ensures var t := SaveAll(s, ps);
      forall id :: id in s.players && id < s.nextPlayerId ==> t.players[id] == s.players[id]
    decreases |ps|
  {
    if ps != [] {
      SaveAllRows(SaveNew(s, ps[0]), ps[1..]);
      assert forall i :: 1 <= i < |ps| ==> ps[i] == ps[1..][i - 1];
    }
  }

  /** The ids in `ids` whose player is alive, in order. */
  function KeepAlive(ps: map<PlayerId, Player>, ids: seq<PlayerId>): (r: seq<PlayerId>)
    ensures forall id :: id in r <==> id in ids && id in ps && ps[id].isAlive
  {
    if ids == [] then []
    else
      var rest := KeepAlive(ps, ids[..|ids| - 1]);
      var last := ids[|ids| - 1];
      assert ids == ids[..|ids| - 1] + [last];
      if last in ps && ps[last].isAlive then rest + [last] else rest
  }

  /**
   * The alive players of a room are exactly its present players filtered by
   * isAlive, in the same order; so they are a sub-list of the present ones.
   */
  lemma {:induction false} AliveIsActiveFiltered(ps: map<PlayerId, Player>, code: Code, n: nat)
    ensures SelectBelow(ps, AliveIn(code), n) == KeepAlive(ps, SelectBelow(ps, ActiveIn(code), n))
  {
    if n > 0 {
      AliveIsActiveFiltered(ps, code, n - 1);
      var act := SelectBelow(ps, ActiveIn(code), n - 1);
      if n - 1 in ps && Matches(ActiveIn(code), ps[n - 1]) {
        assert (act + [n - 1])[..|act + [n - 1]| - 1] == act;
      }
    }
  }

  lemma AliveAreActive(s: Store, code: Code)
    ensures Alive(s, code) == KeepAlive(s.players, Active(s, code))
  {
    AliveIsActiveFiltered(s.players, code, s.nextPlayerId);
  }

  /**
   * `findByRoomAndIsAlive(room, true)` does not look at leftAt: a player who
   * has left but is still alive is in its result and not among the present.
   */
  lemma DepartedAliveStillCounted(s: Store, code: Code, id: PlayerId)
    requires Valid(s) && id in s.players
    requires s.players[id].roomCode == code && s.players[id].isAlive && s.players[id].hasLeft
    ensures id in Select(s, WithAliveFlag(code, true))
    ensures id !in Active(s, code) && id !in Alive(s, code)
  {
  }

  /** A nickname held only by players who have left is free again. */
  lemma DepartedNicknameIsFree(s: Store, code: Code, nickname: string)
    requires forall id :: id in s.players && s.players[id].roomCode == code && s.players[id].nickname == nickname
               ==> s.players[id].hasLeft
    ensures !NicknameTaken(s, code, nickname)
  {
  }
}
