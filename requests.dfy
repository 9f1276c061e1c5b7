/**
 * The two request bodies that carry input bounds: creating a room and
 * joining one. The controllers validate them before the services run;
 * the bounds are stated here as the set of constraint violations.
 */
module Requests {
  import opened Wrappers

  datatype RoomCreateRequest = RoomCreateRequest(
    maxPlayers: Option<int>,
    roundLimit: Option<int>,
    themeGroup: Option<string>)

  datatype JoinRoomRequest = JoinRoomRequest(nickname: Option<string>)

  datatype Violation =
    | MaxPlayersBelowMin | MaxPlayersAboveMax
    | RoundLimitBelowMin | RoundLimitAboveMax
    | NicknameBlank | NicknameSize

  const MinPlayers := 3
  const MaxPlayers := 12
  const MinRounds := 1
  const MaxRounds := 5
  const RoundLimitWhenOmitted := 3
  const MinNickname := 2
  const MaxNickname := 20

  /**
   * A request body as deserialized: a field missing from the body keeps the
   * class's initializer, which is 3 for roundLimit and null for the others.
   */
  function FromBody(maxPlayers: Option<int>, roundLimit: Option<int>, themeGroup: Option<string>): (r: RoomCreateRequest)
    ensures r.maxPlayers == maxPlayers && r.themeGroup == themeGroup
    ensures roundLimit.None? ==> r.roundLimit == Some(RoundLimitWhenOmitted)
    ensures roundLimit.Some? ==> r.roundLimit == roundLimit
  {
    RoomCreateRequest(maxPlayers, Some(roundLimit.GetOr(RoundLimitWhenOmitted)), themeGroup)
  }

  /** `@Min`/`@Max` hold vacuously of a null field. */
  function RoomCreateViolations(r: RoomCreateRequest): (vs: set<Violation>)
    ensures vs == {} <==>
      (r.maxPlayers.Some? ==> MinPlayers <= r.maxPlayers.value <= MaxPlayers) &&
      (r.roundLimit.Some? ==> MinRounds <= r.roundLimit.value <= MaxRounds)
    ensures vs <= {MaxPlayersBelowMin, MaxPlayersAboveMax, RoundLimitBelowMin, RoundLimitAboveMax}
  {
    (if r.maxPlayers.Some? && r.maxPlayers.value < MinPlayers then {MaxPlayersBelowMin} else {}) +
    (if r.maxPlayers.Some? && r.maxPlayers.value > MaxPlayers then {MaxPlayersAboveMax} else {}) +
    (if r.roundLimit.Some? && r.roundLimit.value < MinRounds then {RoundLimitBelowMin} else {}) +
    (if r.roundLimit.Some? && r.roundLimit.value > MaxRounds then {RoundLimitAboveMax} else {})
  }

  /** A request that omits roundLimit is valid iff its player count is, and then plays 3 rounds. */
  lemma OmittedRoundLimitIsThree(maxPlayers: int)
    ensures var r := FromBody(Some(maxPlayers), None, None);
      r.roundLimit == Some(3) &&
      (RoomCreateViolations(r) == {} <==> 3 <= maxPlayers <= 12)
  {
  }

  /** The characters `String.trim` strips: every code point up to the space. */
  predicate IsTrimmed(c: char) {
    c <= ' '
  }

  /** `@NotBlank`: not null and something is left after trimming. */
  predicate NotBlank(s: Option<string>) {
    s.Some? && exists i :: 0 <= i < |s.value| && !IsTrimmed(s.value[i])
  }

  /** `@Size(min = 2, max = 20)`; null is accepted by @Size. */
  function NicknameViolations(r: JoinRoomRequest): (vs: set<Violation>)
    ensures vs == {} <==>
      r.nickname.Some? && MinNickname <= |r.nickname.value| <= MaxNickname &&
      exists i :: 0 <= i < |r.nickname.value| && !IsTrimmed(r.nickname.value[i])
    ensures r.nickname.None? ==> vs == {NicknameBlank}
  {
    (if NotBlank(r.nickname) then {} else {NicknameBlank}) +
    (if r.nickname.Some? && !(MinNickname <= |r.nickname.value| <= MaxNickname) then {NicknameSize} else {})
  }

  /** A nickname of only spaces is refused even when its length is allowed. */
  lemma {:induction false} SpacesOnlyNicknameRefused(n: string)
    requires 2 <= |n| <= 20
    requires forall i :: 0 <= i < |n| ==> n[i] == ' '
    ensures NicknameViolations(JoinRoomRequest(Some(n))) == {NicknameBlank}
  {
  }

  /** Lengths outside 2..20 are refused whatever the characters. */
  lemma NicknameLengthBounds(n: string)
    requires |n| < 2 || |n| > 20
    ensures NicknameSize in NicknameViolations(JoinRoomRequest(Some(n)))
  {
  }
}
