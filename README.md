# Liar game: a verified model of the room and round state machine

This project is a Dafny model of the server of an online "liar" party game.

- **Rooms.** Players join a room in its LOBBY. The host starts a game of a few rounds.
- **Dealing.** At the start of every round, one alive player is secretly dealt the LIAR role without a word. Every other alive player is a CITIZEN holding one common theme word.
- **A round.** Players describe their word. They vote on whom to accuse. The accused gives a final defense. A final ballot then decides whether the accused is eliminated.
- **End of game.**
  - An eliminated liar means the citizens win.
  - Reaching the round limit means the liar wins.
  - So does having fewer than three alive players.

Every player gets a personal GAME_END message with a reason.

## What is modelled

- **The store** (`Store`) is the abstract database.
  - Rooms are keyed by their unique code.
  - Players are keyed by generated ids.
  - Rounds are keyed by (room, idx).
  - Votes are unique per (round, voter, isFinalVote).
  - Message logs are kept in order.
  - An outbound event log stands for every broadcast and personal message.
- **The database object** (`Store.Db`) is a class with the same fields. The service methods update it in place.
- **Transactions.** Every public service operation is a body that either throws an `Error` or reaches a new store. `Store.Commit` then plays the part of `@Transactional`:
  - an exception restores every table;
  - messages already sent stay sent.
- **Table consistency.** `Store.Valid` states the constraints the entities declare: keys match rows, every player and round points at an existing room, every vote and message log points at an existing round, codes and nicknames fit their columns, votes are unique per (round, voter, isFinalVote). It adds the rule the services keep by hand: a room has at most one present host. `RoomLifecycleProofs`, `GamePlayIntegrity` and `RoomIntegrity` prove that every public operation, accepted or refused, keeps it.
- **Repository queries** are functions over the store (`PlayerRepository`, `VoteRepository`).
  - The player queries have no ORDER BY, so the order of their lists is unspecified. The model chooses ascending id, which is insertion order for identity ids (see `PlayerRepository.Select` under "## Left out").
  - The store is read with the changes made earlier in the same call already visible, because the persistence context flushes before each query.
- **`GamePlayService`.**
  - `GamePlay` defines the round flow as functions over the store.
  - `GamePlayProofs` and `GamePlayGuards` prove what that flow guarantees.
  - `GamePlayService` holds the methods on `Db`. Each is proved to reach exactly the store its function describes.
- **`GameRoomService`.** It follows the same split across `RoomLifecycle`, `RoomLifecycleProofs` and `GameRoomService`. `RoomCodes` covers code generation.
- **Dealing** is shared by both services (`Roles`, `Dealing`).
  - `Collections.shuffle` is the library's Fisher–Yates pass over caller-supplied draws.
  - `Math.random() > 0.5` is a supplied boolean.
- **`PlayerService.leaveRoom`** is modelled in `PlayerLeave` and `PlayerService`. Whether the hand-off to `handlePlayerDisconnection` throws is a parameter.
- **The session map of `WebSocketConfig`** is `SessionRegistry.Registry`.
- **The browser client.** `ClientState.AppState` models the `AppState` of `app.js` and the player-list handlers of `game.js`.
- **Requests and entities.** `Requests` holds the request bounds; `Entities` holds the entity defaults.

The code is modelled as written, including these behaviours:

- **Vote phase.** `validateVoteState` demands VOTE for final votes as well.
- **No accusation.** An initial ballot without an accusation moves to the next round without marking the old round END.
- **Descriptions.** `submitDescription` accepts a description in any phase, any number of times.
- **`processJudgment`** marks the old round END only when the accused survives a non-empty ballot.
- **Non-host leave.** Any non-host leaving a room in ROUND interrupts the game back to the LOBBY.
- **`startGame`** checks neither the room state nor the host's room.
- **Final-vote eligibility.** `submitFinalVote` counts eligible voters with `findByRoomAndIsAlive`, which also counts departed players who are still alive.
- **`completeCurrentRound`** throws at the round limit when the room has two LIAR rows, because the single-result query fails.
- **Room snapshots.** `updateRoomState` spreads the snapshot over `roomInfo`. The snapshot names its state field `roomState`, so `roomInfo.state` is never overwritten.

## Model

| member | source | states |
|---|---|---|
| Entities.NewPlayer | src/main/java/com/liargame/domain/entity/Player.java:33-56 | a built player is alive, has not left, and has no speaking order and no word; its room, nickname, host flag and role are the ones given |
| Entities.NewRoom | src/main/java/com/liargame/domain/entity/GameRoom.java:25-41 | a built room is in LOBBY with currentRound 0 and keeps the given code, capacity, round limit and theme |
| Entities.NewRound | src/main/java/com/liargame/domain/entity/Round.java:31-45 | a new round is READY with nobody accused |
| Requests.FromBody | src/main/java/com/liargame/domain/dto/RoomCreateRequest.java:10-23 | a body that omits roundLimit gets 3; the other fields are as sent |
| Requests.RoomCreateViolations | src/main/java/com/liargame/domain/dto/RoomCreateRequest.java:12-18 | no violation iff maxPlayers is in 3..12 and roundLimit is in 1..5, where an absent field passes |
| Requests.OmittedRoundLimitIsThree | src/main/java/com/liargame/domain/dto/RoomCreateRequest.java:12-18 | a request without roundLimit plays 3 rounds and is valid iff 3 <= maxPlayers <= 12 |
| Requests.NicknameViolations | src/main/java/com/liargame/domain/dto/JoinRoomRequest.java:11-12 | no violation iff the nickname is present, 2..20 characters long and not blank after trimming; an absent nickname is reported as blank |
| Requests.SpacesOnlyNicknameRefused | src/main/java/com/liargame/domain/dto/JoinRoomRequest.java:11-12 | a nickname of 2..20 spaces is refused as blank |
| Requests.NicknameLengthBounds | src/main/java/com/liargame/domain/dto/JoinRoomRequest.java:12 | a nickname shorter than 2 or longer than 20 is refused for its size |
| Store.Db.constructor | src/main/java/com/liargame/domain/entity/Player.java:18-21 | the database starts with no rows and no messages, and the IDENTITY counter hands out ids from its first value |
| Store.Db.Send | src/main/java/com/liargame/service/GamePlayService.java:75 | sending appends exactly one message and changes no table |
| Store.Db.Rollback | src/main/java/com/liargame/service/GamePlayService.java:79-120 | a rolled-back transaction restores every table to where it started; messages already sent stay sent |
| PlayerRepository.SelectBelow | src/main/java/com/liargame/domain/repository/PlayerRepository.java:16-31 | a list query returns exactly the matching players, in ascending id |
| PlayerRepository.Select | src/main/java/com/liargame/domain/repository/PlayerRepository.java:16-31 | on a consistent store, an id is in the result iff its row matches the filter; the result is ascending and has no repeats |
| PlayerRepository.FindByRole | src/main/java/com/liargame/domain/repository/PlayerRepository.java:31 | the single-result role query finds nothing, finds the one matching row, or fails when two or more rows match |
| PlayerRepository.WithId | src/main/java/com/liargame/domain/entity/Player.java:18-21 | a saved row carries its generated id and is otherwise the row given |
| PlayerRepository.SaveAll | src/main/java/com/liargame/service/GameRoomService.java:368 | `saveAll` of new players uses one fresh id per player and changes no other table |
| PlayerRepository.SaveAllRows | src/main/java/com/liargame/service/GameRoomService.java:368 | after `saveAll` the table holds the old ids plus the next n ids; the i-th new player is under the i-th new id; the earlier rows are unchanged |
| PlayerRepository.KeepAlive | src/main/java/com/liargame/service/GameRoomService.java:154-157 | filtering by isAlive keeps exactly the listed players who are alive |
| PlayerRepository.AliveIsActiveFiltered | src/main/java/com/liargame/domain/repository/PlayerRepository.java:16-26 | the alive players of a room are its present players filtered by isAlive, in the same order |
| PlayerRepository.AliveAreActive | src/main/java/com/liargame/domain/repository/PlayerRepository.java:16-26 | the alive query equals the present query filtered by isAlive, so alive players are present players |
| PlayerRepository.DepartedAliveStillCounted | src/main/java/com/liargame/domain/repository/PlayerRepository.java:29 | a departed player who is still alive is returned by `findByRoomAndIsAlive` but is neither present nor alive by the leftAt-aware queries |
| PlayerRepository.DepartedNicknameIsFree | src/main/java/com/liargame/domain/repository/PlayerRepository.java:22-23 | a nickname held only by departed players is not taken |
| VoteRepository.Ballot | src/main/java/com/liargame/domain/repository/VoteRepository.java:17-20 | a ballot holds exactly the votes of one round with one isFinalVote value |
| VoteRepository.NoBallotFor | src/main/java/com/liargame/domain/entity/Vote.java:25-27 | a round no vote points at has an empty ballot of either kind |
| VoteRepository.BallotsAreSeparate | src/main/java/com/liargame/domain/repository/VoteRepository.java:29-37 | a final vote leaves the initial ballot unchanged and the other way round; only the ballot it belongs to grows |
| VoteRepository.CountFor | src/main/java/com/liargame/domain/repository/VoteRepository.java:22-23 | a target's count is zero iff no vote names it, and never exceeds the ballot |
| VoteRepository.Targets | src/main/java/com/liargame/domain/repository/VoteRepository.java:22-23 | the grouping keys are exactly the voted-for targets, each once |
| VoteRepository.CountByTarget | src/main/java/com/liargame/domain/repository/VoteRepository.java:22-23 | one row per voted-for target, carrying its number of votes, which is positive |
| VoteRepository.CountsSumToTotal | src/main/java/com/liargame/domain/repository/VoteRepository.java:22-30 | the per-target counts of a ballot add up to its total count |
| VoteRepository.CountDecision | src/main/java/com/liargame/service/GamePlayService.java:267-272 | a decision tally never exceeds the ballot |
| VoteRepository.DecisionsFitBallot | src/main/java/com/liargame/domain/entity/Vote.java:41-42 | ELIMINATE and SURVIVE tallies together never exceed the ballot, since a vote carries one decision |
| Tally.MaxCount | src/main/java/com/liargame/service/GamePlayService.java:413-416 | the top count bounds every row and is held by some row |
| Tally.FirstMax | src/main/java/com/liargame/service/GamePlayService.java:413-416 | the first row holding the top count: every earlier row has fewer votes |
| Tally.Insert | src/main/java/com/liargame/service/GamePlayService.java:413 | inserting a row into the sorted list keeps the same rows plus the new one |
| Tally.InsertKeepsDescending | src/main/java/com/liargame/service/GamePlayService.java:413 | insertion keeps the list sorted from the highest count down |
| Tally.SortDesc | src/main/java/com/liargame/service/GamePlayService.java:413 | the sort is a permutation of the rows, sorted from the highest count down, and its head is the first row with the top count |
| Tally.HeadIsMax | src/main/java/com/liargame/service/GamePlayService.java:413-416 | any descending reordering of the rows starts with the top count |
| Tally.FirstAtLeast | src/main/java/com/liargame/service/GamePlayService.java:416-418 | finds a row reaching the threshold iff one exists; on a sorted list it is the head |
| Tally.InitialOutcomeRule | src/main/java/com/liargame/service/GamePlayService.java:408-478 | the first target with the top count is accused iff that count is at least alive/2+1, or at least 2 and held by no other target; otherwise there is no majority |
| Tally.EmptyBallotHasNoVotes | src/main/java/com/liargame/service/GamePlayService.java:399-405 | an empty initial ballot reports no votes |
| Tally.MajorityIsUnique | src/main/java/com/liargame/service/GamePlayService.java:408-438 | with no more votes than alive players, at most one target reaches the majority |
| Tally.TieAtTopAccusesNobody | src/main/java/com/liargame/service/GamePlayService.java:441-478 | two targets tied at 3 votes among 6 or more alive players: nobody is accused |
| Tally.PluralityAccuses | src/main/java/com/liargame/service/GamePlayService.java:441-468 | a lone leader with 3 votes against 2 among 7 alive players is accused without a majority |
| Tally.SingleVotesAccuseNobody | src/main/java/com/liargame/service/GamePlayService.java:441-478 | one vote each for two targets accuses nobody when 2 or more players are alive |
| Tally.JavaHalf | src/main/java/com/liargame/service/GamePlayService.java:546-548 | Java's division by 2 truncates toward zero, also for a negative operand |
| Tally.RequiredToEliminateIsMajority | src/main/java/com/liargame/service/GamePlayService.java:546-548 | the threshold is the least strict majority of the alive players other than the accused: twice it exceeds their number and twice one less does not; with nobody alive it is still 1 |
| Tally.TallyDecisions | src/main/java/com/liargame/service/GamePlayService.java:507-513 | the counting loop returns exactly the ELIMINATE and SURVIVE tallies of the final ballot, which together never exceed it |
| Roles.Pick | src/main/java/com/liargame/service/GamePlayService.java:676 | a supplied draw used for a shuffle position is below its bound |
| Roles.Swap | src/main/java/com/liargame/service/GamePlayService.java:676 | a swap exchanges exactly two positions and permutes the list |
| Roles.ShuffleFrom | src/main/java/com/liargame/service/GamePlayService.java:676 | the shuffle passes permute the list and keep it free of repeats |
| Roles.Shuffle | src/main/java/com/liargame/service/GamePlayService.java:676 | `Collections.shuffle` permutes the list: same length, same elements, still free of repeats |
| Roles.CitizenWord | src/main/java/com/liargame/service/GamePlayService.java:678-680 | the citizens' word is the theme's wordA or wordB |
| Roles.MakeCitizens | src/main/java/com/liargame/service/GamePlayService.java:683-686 | every listed player becomes a CITIZEN holding the word; nobody else changes |
| Roles.Number | src/main/java/com/liargame/service/GamePlayService.java:696-699 | the i-th listed player gets orderNo k+i; nobody else changes |
| Roles.NumberIsOneToOne | src/main/java/com/liargame/service/GamePlayService.java:696-699 | numbering any reordering of the players from 1 makes orderNo a one-to-one map onto 1..n and touches nothing else |
| Roles.ReassignDeals | src/main/java/com/liargame/service/GamePlayService.java:674-702 | reassignment deals the alive players: the first of the shuffle is the one LIAR, without a word; every other one is a CITIZEN with one common word, wordA or wordB; orderNo is a permutation of 1..n; nobody else and nothing else changes |
| Roles.ReassignNobody | src/main/java/com/liargame/service/GamePlayService.java:689-693 | reassigning an empty list changes nobody |
| Roles.AssignDeals | src/main/java/com/liargame/service/GameRoomService.java:183-209 | `assignRoles` then `assignSpeakingOrder` deal the players in the same way: one LIAR without a word, CITIZENs with one common word, orderNo a permutation of 1..n, nobody else changed |
| Dealing.ShuffleList | src/main/java/com/liargame/service/GamePlayService.java:676 | the in-place shuffle loop computes the shuffle, which is a permutation |
| Dealing.MakeCitizensIn | src/main/java/com/liargame/service/GamePlayService.java:683-686 | the loop makes every listed player a citizen with the word and changes no other table |
| Dealing.MakeLiarIn | src/main/java/com/liargame/service/GamePlayService.java:689-693 | the chosen player becomes LIAR without a word; nothing else changes |
| Dealing.NumberIn | src/main/java/com/liargame/service/GamePlayService.java:697-699 | the numbering loop sets orderNo i+1 on the i-th player and changes no other table |
| RoomCodes.Attempt | src/main/java/com/liargame/service/GameRoomService.java:413-420 | every attempt is 8 characters from A-Z0-9 |
| RoomCodes.RoomCodeFrom | src/main/java/com/liargame/service/GameRoomService.java:411-424 | a produced code is 8 characters from A-Z0-9 and differs from every existing room code |
| RoomCodes.FirstFreeAttempt | src/main/java/com/liargame/service/GameRoomService.java:411-424 | the produced code is the first attempt that is not taken; every earlier attempt was taken |
| RoomCodes.AllAttemptsTaken | src/main/java/com/liargame/service/GameRoomService.java:411-424 | no code is produced only when every attempt the draws allow is taken |
| RoomCodes.GenerateRoomCode | src/main/java/com/liargame/service/GameRoomService.java:411-424 | the do-while with its inner character loop returns the first free attempt, and so a fresh 8-character code |
| GamePlay.GenerateSummary | src/main/java/com/liargame/service/GamePlayService.java:773-778 | the summary has at most 50 characters; text of 50 or fewer is kept unchanged; longer text becomes its first 47 characters plus "...", exactly 50 |
| GamePlay.Reason | src/main/java/com/liargame/service/GamePlayService.java:736-762 | a liar gets mission_success or mission_failed and a citizen gets citizens_victory or citizens_defeat; the success reasons go exactly to the winning side |
| GamePlay.FirstLiar | src/main/java/com/liargame/service/GamePlayService.java:715-719 | the liar named at game end is the first listed player with role LIAR; it is absent iff nobody listed is LIAR |
| GamePlay.GameEndMessages | src/main/java/com/liargame/service/GamePlayService.java:721-767 | exactly one GAME_END per present player, in order, each with the winner and the reason that player's role calls for |
| GamePlay.CurrentKey | src/main/java/com/liargame/service/GamePlayService.java:97-98 | the current round is found iff the room has a round number and a round with that idx exists |
| GamePlay.ResolveAccused | src/main/java/com/liargame/service/GamePlayService.java:191-199 | the accused resolves iff the round names one and that player exists; a missing player raises the caller's error |
| GamePlay.ValidateVoteState | src/main/java/com/liargame/service/GamePlayService.java:332-338 | a vote of either kind is allowed iff the round is in VOTE; the error names the kind of vote |
| GamePlay.Without | src/main/java/com/liargame/service/GamePlayService.java:253-256 | the eligible list is the alive list without the accused |
| GamePlayProofs.EndGameEffects | src/main/java/com/liargame/service/GamePlayService.java:709-771 | ending a game sets the room to END, changes no player, round or vote, and sends exactly one GAME_END per present player with the reason for that player's role |
| GamePlayProofs.ReassignKeepsIdentity | src/main/java/com/liargame/service/GamePlayService.java:674-702 | reassignment changes roles, words and order only: ids, rooms, nicknames, host, alive and left flags stay |
| GamePlayProofs.StartNewRoundEffects | src/main/java/com/liargame/service/GamePlayService.java:643-672 | an existing round with the idx leaves the store exactly as it was; otherwise one READY round with nobody accused is added and RoundStateChanged(READY) is sent |
| GamePlayProofs.StartNewRoundDeals | src/main/java/com/liargame/service/GamePlayService.java:643-672 | a new round deals the alive players: one liar, one citizen word, speaking order 1..n |
| GamePlayProofs.ProceedAtLimit | src/main/java/com/liargame/service/GamePlayService.java:615-641 | at the round limit the room ends with the liar's side announced winner, and currentRound is unchanged |
| GamePlayProofs.ProceedBelowLimit | src/main/java/com/liargame/service/GamePlayService.java:615-641 | below the limit currentRound rises by exactly one and that round exists; it is a fresh READY round unless one with that idx existed, which is kept; no second round per idx |
| GamePlayProofs.ProceedProgresses | src/main/java/com/liargame/service/GamePlayService.java:615-641 | advancing never touches votes, messages, identities or existing rounds, and only appends messages |
| GamePlayProofs.CheckRemainingEffects | src/main/java/com/liargame/service/GamePlayService.java:601-613 | with fewer than three alive players the room ends with the liar's side winning; otherwise the game proceeds to the next round |
| GamePlayProofs.CompleteCurrentRoundEffects | src/main/java/com/liargame/service/GamePlayService.java:316-330 | the round is marked END; the call fails only with the non-unique-result error, at the round limit, with two or more LIAR rows |
| GamePlayProofs.FinalVerdict | src/main/java/com/liargame/service/GamePlayService.java:264-314 | the accused dies iff ELIMINATE votes outnumber SURVIVE votes, so a tie is survival; a dead liar ends the game with the citizens announced winner; every other outcome ends the round |
| GamePlayProofs.JudgmentVerdict | src/main/java/com/liargame/service/GamePlayService.java:490-599 | the accused dies iff final votes were cast and ELIMINATE reaches a majority of the alive players other than the accused; a dead liar ends the game for the citizens; only survival after a vote marks the old round END |
| GamePlayProofs.AccusationRule | src/main/java/com/liargame/service/GamePlayService.java:408-468 | an accusation records the first top target as accused and moves the round to FINAL_DEFENSE; no player, room or vote changes |
| GamePlayProofs.NoAccusationLeavesRoundOpen | src/main/java/com/liargame/service/GamePlayService.java:399-405 | without an accusation the game moves on, the old round keeps its state (not END), and no_votes or no_majority is announced |
| GamePlayProofs.CompletionKeepsVotes | src/main/java/com/liargame/service/GamePlayService.java:356-367 | judging a completed ballot never adds or removes votes |
| GamePlayGuards.VoteRefused | src/main/java/com/liargame/service/GamePlayService.java:89-105 | a vote from a dead voter, for oneself, outside VOTE, or repeated in the same ballot is refused and changes nothing |
| GamePlayGuards.VoteAccepted | src/main/java/com/liargame/service/GamePlayService.java:79-120 | an accepted vote passed every guard, and after it the votes are the old votes plus exactly that one |
| GamePlayGuards.VoteFailure | src/main/java/com/liargame/service/GamePlayService.java:79-120 | `submitVote` throws iff the room, voter, target or current round is missing, the voter is dead, votes for itself, the round is not in VOTE, the voter already cast this kind of vote, or a final vote completes its ballot while the round's accused is null or unknown (`processJudgment`'s `findById`, GamePlayService.java:490-492); each error is the one the source raises, and a throw leaves every table as it was |
| GamePlayGuards.VotesStayUnique | src/main/java/com/liargame/domain/entity/Vote.java:12-14 | `submitVote` keeps at most one vote per (round, voter, isFinalVote) |
| GamePlayGuards.NewVoteUnique | src/main/java/com/liargame/domain/entity/Vote.java:12-14 | appending a vote whose (round, voter, isFinalVote) has not voted yet keeps the unique constraint |
| GamePlayGuards.FinalVotesStayUnique | src/main/java/com/liargame/service/GamePlayService.java:204-262 | `submitFinalVote` keeps at most one vote per (round, voter, isFinalVote), accepted or refused |
| GamePlayGuards.FinalVoteNeedsVotePhase | src/main/java/com/liargame/service/GamePlayService.java:332-338 | a final vote passes the phase check iff the round is in VOTE, the same condition as a first vote |
| GamePlayGuards.DescriptionInAnyPhase | src/main/java/com/liargame/service/GamePlayService.java:30-77 | a description is accepted iff the room, the player and the current round exist and the player is alive, whatever the phase; it logs the text with its summary and sends DESC_UPDATE, nothing else; a refusal changes nothing |
| GamePlayGuards.DescriptionTwice | src/main/java/com/liargame/service/GamePlayService.java:30-77 | a player who described once may describe again |
| GamePlayGuards.FinalDefenseGuard | src/main/java/com/liargame/service/GamePlayService.java:122-166 | a final defense is accepted iff the round is in FINAL_DEFENSE and the speaker is the accused; it moves the round to FINAL_DEFENSE_COMPLETE and logs the text; a refusal changes nothing |
| GamePlayGuards.SecondDefenseRefused | src/main/java/com/liargame/service/GamePlayService.java:132-134 | after an accepted defense, any further defense is refused as out of phase |
| GamePlayGuards.StartFinalVotingGuard | src/main/java/com/liargame/service/GamePlayService.java:168-202 | final voting starts iff a host asks in FINAL_DEFENSE_COMPLETE and the accused exists; the round moves to FINAL_VOTING; a refusal changes nothing |
| GamePlayGuards.FinalVoteRefused | src/main/java/com/liargame/service/GamePlayService.java:214-233 | a final vote outside FINAL_VOTING, from a dead voter, from the accused or repeated is refused and changes nothing |
| GamePlayGuards.FinalVoteOutcome | src/main/java/com/liargame/service/GamePlayService.java:204-298 | an accepted final vote records the decision against the accused; once votes reach the alive players minus the accused, the accused dies iff ELIMINATE > SURVIVE; until then nobody's life changes |
| GamePlayGuards.StartVotingGuard | src/main/java/com/liargame/service/GamePlayService.java:340-354 | voting starts iff the round is in DESC_COMPLETE and moves it to VOTE; a refusal changes nothing |
| GamePlayGuards.ProceedNextRoundGuard | src/main/java/com/liargame/service/GamePlayService.java:807-828 | a host can advance iff the current round is END, and it then proceeds to the next round; a refusal changes nothing |
| GamePlayService.ReassignRolesAndWords | src/main/java/com/liargame/service/GamePlayService.java:674-702 | the in-place dealing reaches the dealt players of `Roles.ReassignDeals` and changes no other table |
| GamePlayService.StartNewRound | src/main/java/com/liargame/service/GamePlayService.java:643-672 | the method reaches the store whose effects `GamePlayProofs.StartNewRoundEffects` states |
| GamePlayService.EndGameWithResult | src/main/java/com/liargame/service/GamePlayService.java:709-771 | the method ends the room and sends the messages `GamePlayProofs.EndGameEffects` describes |
| GamePlayService.SendGameEnds | src/main/java/com/liargame/service/GamePlayService.java:721-767 | the loop appends one GAME_END per listed player, in list order, and changes nothing but the message log |
| GamePlayService.ProceedToNextRound | src/main/java/com/liargame/service/GamePlayService.java:615-641 | the method reaches the store of the round-limit rule (`ProceedAtLimit`, `ProceedBelowLimit`) |
| GamePlayService.CheckRemainingPlayersAndProceed | src/main/java/com/liargame/service/GamePlayService.java:601-613 | the method reaches the store `CheckRemainingEffects` describes |
| GamePlayService.CompleteCurrentRound | src/main/java/com/liargame/service/GamePlayService.java:316-330 | the method's store and error are those of `CompleteCurrentRoundEffects` |
| GamePlayService.ProcessFinalVoteResults | src/main/java/com/liargame/service/GamePlayService.java:264-314 | the method's store and error are those of the verdict in `FinalVerdict` |
| GamePlayService.ProcessInitialVoteResult | src/main/java/com/liargame/service/GamePlayService.java:369-488 | the method reaches the store of the accusation rule (`AccusationRule`, `NoAccusationLeavesRoundOpen`) |
| GamePlayService.ProcessJudgment | src/main/java/com/liargame/service/GamePlayService.java:490-599 | the method, which tallies the decisions with a loop, reaches the store of `JudgmentVerdict` |
| GamePlayService.CheckVoteCompletion | src/main/java/com/liargame/service/GamePlayService.java:356-367 | once a ballot has as many votes as alive players, it is judged by the path its kind calls for |
| GamePlayService.SubmitVote | src/main/java/com/liargame/service/GamePlayService.java:79-120 | the method's error and store are those of `SubmitVoteBody` and `SubmitVote`: the transaction throws when a `VoteRefused` guard applies, when the room, voter, target or current round is missing, or when a final vote completing its ballot finds no accused (`VoteFailure`); every failure leaves the tables as they were, and otherwise the vote of `VoteAccepted` is stored |
| GamePlayService.SubmitDescription | src/main/java/com/liargame/service/GamePlayService.java:30-77 | the transaction behaves as `DescriptionInAnyPhase` states |
| GamePlayService.SubmitFinalDefense | src/main/java/com/liargame/service/GamePlayService.java:122-166 | the transaction behaves as `FinalDefenseGuard` states |
| GamePlayService.StartFinalVoting | src/main/java/com/liargame/service/GamePlayService.java:168-202 | the transaction behaves as `StartFinalVotingGuard` states; a missing accused undoes the state change |
| GamePlayService.SubmitFinalVote | src/main/java/com/liargame/service/GamePlayService.java:204-262 | the transaction behaves as `FinalVoteRefused` and `FinalVoteOutcome` state |
| GamePlayService.StartVoting | src/main/java/com/liargame/service/GamePlayService.java:340-354 | the transaction behaves as `StartVotingGuard` states |
| GamePlayService.ProceedNextRound | src/main/java/com/liargame/service/GamePlayService.java:807-828 | the transaction behaves as `ProceedNextRoundGuard` states |
| GamePlayIntegrity.EndGameKeepsValid | src/main/java/com/liargame/service/GamePlayService.java:709-771 | ending a game keeps the tables consistent |
| GamePlayIntegrity.KillKeepsValid | src/main/java/com/liargame/service/GamePlayService.java:285-286 | eliminating a player changes no key column, so the tables stay consistent |
| GamePlayIntegrity.DealingKeepsValid | src/main/java/com/liargame/service/GamePlayService.java:674-702 | dealing roles and words to the alive players keeps every id, room, nickname, host flag and leftAt |
| GamePlayIntegrity.StartNewRoundKeepsValid | src/main/java/com/liargame/service/GamePlayService.java:643-672 | starting a round, created or already there, keeps the tables consistent |
| GamePlayIntegrity.ProceedKeepsValid | src/main/java/com/liargame/service/GamePlayService.java:615-641 | moving to the next round or ending at the round limit keeps the tables consistent |
| GamePlayIntegrity.CheckRemainingKeepsValid | src/main/java/com/liargame/service/GamePlayService.java:601-613 | ending for lack of players or proceeding keeps the tables consistent |
| GamePlayIntegrity.CompleteRoundKeepsValid | src/main/java/com/liargame/service/GamePlayService.java:316-330 | completing a round keeps the tables consistent |
| GamePlayIntegrity.FinalResultsKeepValid | src/main/java/com/liargame/service/GamePlayService.java:264-314 | the final ballot's verdict keeps the tables consistent |
| GamePlayIntegrity.InitialResultKeepsValid | src/main/java/com/liargame/service/GamePlayService.java:369-488 | the first ballot's outcome keeps the tables consistent |
| GamePlayIntegrity.JudgmentKeepsValid | src/main/java/com/liargame/service/GamePlayService.java:490-599 | the judgment keeps the tables consistent |
| GamePlayIntegrity.CompletionKeepsValid | src/main/java/com/liargame/service/GamePlayService.java:356-367 | judging a complete ballot, or waiting for more votes, keeps the tables consistent |
| GamePlayIntegrity.SubmitVoteKeepsValid | src/main/java/com/liargame/service/GamePlayService.java:79-120 | `submitVote`, accepted or refused, takes consistent tables to consistent tables |
| GamePlayIntegrity.SubmitDescriptionKeepsValid | src/main/java/com/liargame/service/GamePlayService.java:30-77 | `submitDescription`, accepted or refused, takes consistent tables to consistent tables |
| GamePlayIntegrity.SubmitFinalDefenseKeepsValid | src/main/java/com/liargame/service/GamePlayService.java:122-166 | `submitFinalDefense`, accepted or refused, takes consistent tables to consistent tables |
| GamePlayIntegrity.StartFinalVotingKeepsValid | src/main/java/com/liargame/service/GamePlayService.java:168-202 | `startFinalVoting`, accepted or refused, takes consistent tables to consistent tables |
| GamePlayIntegrity.SubmitFinalVoteKeepsValid | src/main/java/com/liargame/service/GamePlayService.java:204-262 | `submitFinalVote`, accepted or refused, takes consistent tables to consistent tables |
| GamePlayIntegrity.StartVotingKeepsValid | src/main/java/com/liargame/service/GamePlayService.java:340-354 | `startVoting`, accepted or refused, takes consistent tables to consistent tables |
| GamePlayIntegrity.ProceedNextRoundKeepsValid | src/main/java/com/liargame/service/GamePlayService.java:807-828 | `proceedNextRound`, accepted or refused, takes consistent tables to consistent tables |
| GamePlayIntegrity.NewRoundStartsEmpty | src/main/java/com/liargame/domain/entity/Round.java:47-53 | a round `startNewRound` (GamePlayService.java:643-672) creates holds no vote of either kind and no message log |
| RoomLifecycle.ChooseTheme | src/main/java/com/liargame/service/GameRoomService.java:38-46 | the group's theme when a group is asked for and has one, otherwise any theme; none only when both lookups fail |
| RoomLifecycle.Keep | src/main/java/com/liargame/service/GameRoomService.java:628-652 | a bulk delete keeps exactly the rows outside the room |
| RoomLifecycle.PlayersOutside | src/main/java/com/liargame/service/GameRoomService.java:568-610 | deleting a room's players keeps exactly the other rooms' players, unchanged |
| RoomLifecycle.RoundsOutside | src/main/java/com/liargame/service/GameRoomService.java:628-652 | deleting a room's rounds keeps exactly the other rooms' rounds, unchanged |
| RoomLifecycle.KeepUnique | src/main/java/com/liargame/service/GameRoomService.java:628-652 | deleting any subset of the votes keeps the unique constraint |
| RoomLifecycle.CleanupCurrentRoundData | src/main/java/com/liargame/service/GameRoomService.java:628-652 | the votes, round messages and rounds of the room are gone, everyone else's are kept, and no other table changes |
| RoomLifecycle.RemoveRoom | src/main/java/com/liargame/service/GameRoomService.java:568-610 | the room and all its rounds, votes, messages and players are gone; other rooms' rows are unchanged; no message is sent |
| RoomLifecycle.ResetAllPlayersForLobby | src/main/java/com/liargame/service/GameRoomService.java:530-542 | every listed player becomes an alive CITIZEN without a word; nobody else changes |
| RoomLifecycle.FirstHost | src/main/java/com/liargame/service/GameRoomService.java:311-314 | the first listed host, absent iff nobody listed is host |
| RoomLifecycle.OldHost | src/main/java/com/liargame/service/GameRoomService.java:310-314 | the kept host is a present player: the old host, or else the first present player |
| RoomLifecycle.MovedPlayers | src/main/java/com/liargame/service/GameRoomService.java:351-366 | one new player per present player, in order, with the old nickname, as an alive CITIZEN, host iff it is the kept host |
| RoomLifecycle.IdMapping | src/main/java/com/liargame/service/GameRoomService.java:371-378 | the i-th present player maps to the id its copy was saved under |
| RoomLifecycle.MapToVoteInfos | src/main/java/com/liargame/service/GameRoomService.java:260-276 | one entry per voted-for target with its vote count and nickname ("Unknown" if the player is gone); every entry carries the first vote's isFinalVote |
| RoomLifecycleProofs.CreateRoomRule | src/main/java/com/liargame/service/GameRoomService.java:35-63 | creation succeeds iff a fresh code is drawn, a theme is found and both numbers are present; it adds exactly one LOBBY room at round 0 under an 8-character code no other room has; a failure changes nothing |
| RoomLifecycleProofs.CreateRoomKeepsValid | src/main/java/com/liargame/domain/entity/GameRoom.java:25-26 | creating a room keeps the tables consistent, codes unique and at most 8 characters |
| RoomLifecycleProofs.JoinRule | src/main/java/com/liargame/service/GameRoomService.java:65-111 | a join is refused for a missing room, a room outside LOBBY, a full room, a nickname a present player holds, an absent nickname, or a nickname over 20 characters, which the save rejects; otherwise one CITIZEN is added under the next id, host iff nobody was present, and PLAYER_JOINED is sent |
| RoomLifecycleProofs.JoinKeepsValid | src/main/java/com/liargame/service/GameRoomService.java:71-90 | joining keeps the tables consistent, with at most one present host per room |
| RoomLifecycleProofs.StartGameGuards | src/main/java/com/liargame/service/GameRoomService.java:113-142 | a game starts iff the caller is a host and at least three players are present; a refusal changes nothing |
| RoomLifecycleProofs.StartGameOpens | src/main/java/com/liargame/service/GameRoomService.java:113-142 | a started room is at round 1, and GAME_STARTED is the one message sent |
| RoomLifecycleProofs.StartGameExistingRound | src/main/java/com/liargame/service/GameRoomService.java:145-152 | if round 1 already exists, only the room's state and round number change |
| RoomLifecycleProofs.StartGameTooFewAlive | src/main/java/com/liargame/service/GameRoomService.java:154-162 | with fewer than three alive players the room ends at once and nobody is dealt |
| RoomLifecycleProofs.StartGameDeals | src/main/java/com/liargame/service/GameRoomService.java:113-181 | otherwise the room is in ROUND, a READY round 1 is created, and the alive players are dealt with exactly one liar |
| RoomLifecycleProofs.StartNewRoundOnce | src/main/java/com/liargame/service/GameRoomService.java:144-181 | an existing round is never created again, and no existing round is altered |
| RoomLifecycleProofs.StartNewRoundFrame | src/main/java/com/liargame/service/GameRoomService.java:144-181 | starting a round never adds or removes a room, keeps the room's round number and every other room, and sends nothing |
| RoomLifecycleProofs.StartNewRoundDeals | src/main/java/com/liargame/service/GameRoomService.java:144-181 | with at least three alive players and no such round, the alive players are dealt and a READY round is added, nothing else changing |
| RoomLifecycleProofs.UnknownLeaveIgnored | src/main/java/com/liargame/service/GameRoomService.java:471-484 | a leave for an unknown room or player changes nothing |
| RoomLifecycleProofs.HostLeaveDeletesRoom | src/main/java/com/liargame/service/GameRoomService.java:489-494 | a host leaving deletes the room with all its rounds, votes, messages and players, with ROOM_DELETED as the only message; other rooms keep everything |
| RoomLifecycleProofs.OtherLeaveInterrupts | src/main/java/com/liargame/service/GameRoomService.java:496-527 | anyone else is marked as left. During ROUND, the room's rounds, votes and round messages are deleted, the room goes back to LOBBY without a round while other rooms are untouched, and every remaining present player is reset, with GAME_INTERRUPTED sent; otherwise nothing else changes and PLAYER_LEFT is sent. Either way ROOM_STATE_UPDATE is sent last |
| RoomLifecycleProofs.InterruptClears | src/main/java/com/liargame/service/GameRoomService.java:496-527 | during ROUND, a non-host leaving clears the room's rounds, votes and round messages, returns it to LOBBY without a round, resets its present players and leaves the other rooms untouched |
| RoomLifecycleProofs.NobodyToMove | src/main/java/com/liargame/service/GameRoomService.java:303-308 | with nobody present, no room is created, nothing changes, and null is returned |
| RoomLifecycleProofs.NewRoomFailureChangesNothing | src/main/java/com/liargame/service/GameRoomService.java:299-345 | a failed relocation leaves the tables as they were |
| RoomLifecycleProofs.NewRoomAfterGame | src/main/java/com/liargame/service/GameRoomService.java:299-382 | a new LOBBY room under a fresh code gets the old settings and a copy of every present player as an alive CITIZEN, with only the kept host as host; the old room and its players are gone |
| RoomLifecycleProofs.RelocationShape | src/main/java/com/liargame/service/GameRoomService.java:299-345 | the returned code is fresh and the returned mapping is the id mapping of the present players |
| RoomLifecycleProofs.RelocationMapping | src/main/java/com/liargame/service/GameRoomService.java:371-378 | the mapping covers every present player, and only them, and takes each to its copy in the new room with the same nickname |
| RoomLifecycleProofs.IdMappingKeys | src/main/java/com/liargame/service/GameRoomService.java:371-378 | the mapping has an entry for each listed id and nothing else |
| RoomLifecycleProofs.NewRoomOneHost | src/main/java/com/liargame/service/GameRoomService.java:310-366 | the new room has exactly one host |
| RoomLifecycleProofs.VoteInfosCountEveryVote | src/main/java/com/liargame/service/GameRoomService.java:260-276 | the counts in a snapshot's vote list add up to the number of votes |
| GameRoomService.CreateRoom | src/main/java/com/liargame/service/GameRoomService.java:35-63 | the transaction behaves as `CreateRoomRule` states and returns the generated code exactly on success |
| GameRoomService.JoinRoom | src/main/java/com/liargame/service/GameRoomService.java:65-111 | the transaction behaves as `JoinRule` states and returns the new player's id exactly on success |
| GameRoomService.AssignRoles | src/main/java/com/liargame/service/GameRoomService.java:183-201 | the in-place loop makes the first of the shuffle the liar without a word and every later one a citizen with one word |
| GameRoomService.AssignSpeakingOrder | src/main/java/com/liargame/service/GameRoomService.java:203-209 | the loop numbers a reshuffled list from 1, which orders the players 1..n one-to-one |
| GameRoomService.AlivePlayers | src/main/java/com/liargame/service/GameRoomService.java:154-157 | the filter keeps exactly the present players who are alive |
| GameRoomService.StartNewRound | src/main/java/com/liargame/service/GameRoomService.java:144-181 | the method reaches the store whose effects `StartGameExistingRound`, `StartGameTooFewAlive` and `StartGameDeals` state |
| GameRoomService.StartGame | src/main/java/com/liargame/service/GameRoomService.java:113-142 | the transaction behaves as `StartGameGuards` and `StartGameOpens` state |
| GameRoomService.CleanupCurrentRoundData | src/main/java/com/liargame/service/GameRoomService.java:628-652 | the deletes leave exactly the other rooms' votes, messages and rounds |
| GameRoomService.RemoveRoom | src/main/java/com/liargame/service/GameRoomService.java:384-409 | the deletes remove the room and everything it holds, as `RoomLifecycle.RemoveRoom` states |
| GameRoomService.DeleteRoomCompletely | src/main/java/com/liargame/service/GameRoomService.java:568-610 | ROOM_DELETED goes out first, then the room and everything it holds are removed |
| GameRoomService.ResetAllPlayersForLobby | src/main/java/com/liargame/service/GameRoomService.java:530-542 | the loop makes every listed player an alive CITIZEN without a word and changes no other table |
| GameRoomService.HandlePlayerDisconnection | src/main/java/com/liargame/service/GameRoomService.java:471-528 | the method behaves as `UnknownLeaveIgnored`, `HostLeaveDeletesRoom` and `OtherLeaveInterrupts` state |
| GameRoomService.NewPlayersFor | src/main/java/com/liargame/service/GameRoomService.java:351-366 | the first loop builds one copy per present player, in order |
| GameRoomService.SaveAllIn | src/main/java/com/liargame/service/GameRoomService.java:368 | the copies are saved under consecutive fresh ids and returned with them |
| GameRoomService.MappingFor | src/main/java/com/liargame/service/GameRoomService.java:371-378 | the second loop maps each old id to its copy's new id |
| GameRoomService.MovePlayersToNewRoom | src/main/java/com/liargame/service/GameRoomService.java:347-382 | the copies are saved and the returned mapping takes the i-th present player to the i-th new id |
| GameRoomService.CreateNewRoomAfterGame | src/main/java/com/liargame/service/GameRoomService.java:299-345 | the transaction behaves as `NobodyToMove`, `NewRoomAfterGame` and `RelocationMapping` state, and returns the new code and mapping, or null |
| PlayerLeave.LeaveRoomGuards | src/main/java/com/liargame/service/PlayerService.java:29-35 | an unknown player is refused, and so is a player whose room code differs; in both cases nothing changes; any other request passes |
| PlayerLeave.LeaveDelegates | src/main/java/com/liargame/service/PlayerService.java:39-41 | a valid leave is exactly the disconnection handling when the hand-off succeeds |
| PlayerLeave.FallbackMarksLeft | src/main/java/com/liargame/service/PlayerService.java:42-57 | when the hand-off throws, only the leaver's leftAt changes, and PLAYER_LEFT goes out, then the room update |
| PlayerLeave.LeaverNotActive | src/main/java/com/liargame/service/PlayerService.java:29-61 | after any successful leave the player is no longer present in the room |
| PlayerService.LeaveRoom | src/main/java/com/liargame/service/PlayerService.java:29-61 | the method rejects and delegates as `LeaveRoomGuards`, `LeaveDelegates` and `FallbackMarksLeft` state |
| RoomIntegrity.DealKeepsValid | src/main/java/com/liargame/service/GameRoomService.java:183-209 | dealing roles and speaking order keeps every id, room, nickname, host flag and leftAt |
| RoomIntegrity.RoundStartKeepsValid | src/main/java/com/liargame/service/GameRoomService.java:144-181 | starting a round keeps the tables consistent, whether the round exists, the room ends or the players are dealt |
| RoomIntegrity.StartGameKeepsValid | src/main/java/com/liargame/service/GameRoomService.java:113-142 | `startGame`, accepted or refused, takes consistent tables to consistent tables |
| RoomIntegrity.RemoveRoomKeepsValid | src/main/java/com/liargame/service/GameRoomService.java:568-610 | removing a room with all it holds leaves no player or round pointing at it |
| RoomIntegrity.LeaveMarkKeepsValid | src/main/java/com/liargame/service/GameRoomService.java:497-498 | setting leftAt keeps the tables consistent and at most one present host per room |
| RoomIntegrity.CleanupKeepsValid | src/main/java/com/liargame/service/GameRoomService.java:628-652 | deleting a room's rounds with their votes and messages keeps the tables consistent |
| RoomIntegrity.ResetKeepsValid | src/main/java/com/liargame/service/GameRoomService.java:530-542 | resetting players for the lobby changes no key column |
| RoomIntegrity.InterruptedKeepsValid | src/main/java/com/liargame/service/GameRoomService.java:501-515 | an interrupted game back in the lobby keeps the tables consistent |
| RoomIntegrity.DisconnectKeepsValid | src/main/java/com/liargame/service/GameRoomService.java:471-528 | `handlePlayerDisconnection` takes consistent tables to consistent tables, for a host, for anyone else and for an unknown caller |
| RoomIntegrity.MoveKeepsValid | src/main/java/com/liargame/service/GameRoomService.java:299-382 | copying the present players into a fresh room and removing the old one leaves every player in an existing room, with ids below the next one and one present host per room |
| RoomIntegrity.NewRoomKeepsValid | src/main/java/com/liargame/service/GameRoomService.java:299-345 | `createNewRoomAfterGame`, accepted or refused, takes consistent tables to consistent tables |
| RoomIntegrity.LeaveRoomKeepsValid | src/main/java/com/liargame/service/PlayerService.java:29-61 | `leaveRoom`, delegated, fallen back or refused, takes consistent tables to consistent tables |
| RoomIntegrity.RoundStartsEmpty | src/main/java/com/liargame/domain/entity/Round.java:47-53 | GameRoomService's `startNewRound` creates the round iff at least three players are alive, and that round holds no vote of either kind and no message log |
| SessionRegistry.EventFor | src/main/java/com/liargame/config/WebSocketConfig.java:64-89 | a disconnect publishes one event carrying the session's room and player if the session is registered, and none otherwise |
| SessionRegistry.Registry.constructor | src/main/java/com/liargame/config/WebSocketConfig.java:26 | the session map starts empty |
| SessionRegistry.Registry.Register | src/main/java/com/liargame/config/WebSocketConfig.java:93-96 | registering maps the session to its room and player, replacing any earlier entry |
| SessionRegistry.Registry.Unregister | src/main/java/com/liargame/config/WebSocketConfig.java:99-105 | the entry is removed and returned; an unknown session leaves the map unchanged |
| SessionRegistry.Registry.Disconnect | src/main/java/com/liargame/config/WebSocketConfig.java:58-90 | a registered session's event is published, then its entry is removed whether publishing throws or not; an unregistered session changes nothing |
| SessionRegistry.RegisteredThenDisconnected | src/main/java/com/liargame/config/WebSocketConfig.java:58-105 | a disconnect right after a registration reports the registered room and player and leaves the map as before the registration |
| ClientState.IndexOfId | src/main/resources/static/game.js:153-154 | findIndex gives the first position with the id, or -1 iff there is none |
| ClientState.FindById | src/main/resources/static/game.js:556-557 | find gives the first entry with the id, absent iff there is none |
| ClientState.Joined | src/main/resources/static/game.js:153-158 | an entry with the same id is replaced in place, so the length is unchanged; a new id is appended at the end; all other entries stay in place |
| ClientState.WithoutId | src/main/resources/static/game.js:173 | exactly the entries with other ids are kept, so the id no longer appears |
| ClientState.ResetForLobby | src/main/resources/static/game.js:1066-1071 | every entry becomes an alive CITIZEN without a word; id, nickname, host flag, order and position are kept |
| ClientState.Merged | src/main/resources/static/game.js:550 | the spread takes capacity, round limit and round from the snapshot and keeps the code and the local state |
| ClientState.JoinedKeepsIdsUnique | src/main/resources/static/game.js:153-158 | joining keeps player ids unique |
| ClientState.JoinedIdempotent | src/main/resources/static/game.js:153-158 | handling the same join twice is the same as handling it once |
| ClientState.WithoutIdAppend | src/main/resources/static/game.js:173 | the filter works entry by entry, so the kept entries stay in their original order |
| ClientState.WithoutIdKeepsUnique | src/main/resources/static/game.js:173 | removing a player keeps ids unique |
| ClientState.WithoutAbsentId | src/main/resources/static/game.js:173 | removing an id that is not listed leaves the list as it was |
| ClientState.AppState.constructor | src/main/resources/static/app.js:2-25 | the initial state has no player, no game, capacity 6, round limit 3 and round 1 |
| ClientState.AppState.HandlePlayerJoined | src/main/resources/static/game.js:143-161 | a message without a player changes nothing; otherwise the list becomes the joined list and nothing else changes |
| ClientState.AppState.HandlePlayerLeft | src/main/resources/static/game.js:164-176 | the entries with the leaver's id are dropped, in order; nothing else changes |
| ClientState.AppState.UpdateRoomState | src/main/resources/static/game.js:546-565 | the snapshot's list (or an empty list) replaces the local one, and the local player's host flag follows the snapshot; the room state is not overwritten |
| ClientState.AppState.ReturnToWaitingRoom | src/main/resources/static/game.js:1050-1075 | every player becomes an alive CITIZEN without a word, in the same order; the room is LOBBY at round 1 and the local role and word are cleared |
| ClientState.AppState.HandleVoteSubmit | src/main/resources/static/game.js:733-740 | a vote request goes out iff the target is not the local player; a self-vote sends nothing and changes nothing |

## Left out

- Audit logging, `LocalDateTime.now()` timestamps and the `Thread.sleep` before the next round: they do not change the game state.
- Store.Valid: does not require a vote's voter and target to be existing players, although Vote.java:30-35 declares both join columns non-null foreign keys. `submitVote` does not check that the voter and target are in the vote's room, so a vote can point at a player of another room. The deletes of GameRoomService.java:568-610 then remove that player while the vote stays. In the database that delete would break the foreign key inside a `try` whose exception is swallowed. The model does not represent that failure, so it cannot keep the clause as an invariant.
- `@Version` optimistic locking and concurrent requests: operations are modelled as atomic and sequential.
- The controllers and views: HTTP and STOMP routing, the DOM, and Redis caching are presentation and transport.
- The payloads of outbound messages are reduced to their type and the fields the model relies on. Publish-failure handling inside the messaging template is not modelled.
- `getRoomState` is modelled only through `mapToVoteInfos`; `mapToPlayerInfo` only copies fields.
- Randomness is supplied as parameters.
  - The shuffle draws and the word choice are a `RoundDraw`.
  - The room-code draws are a sequence.
  - The two random theme lookups are their results.
- The theme repository is not modelled beyond those two results.
- RoomCodes.GenerateRoomCode: the source retries without bound. The model consumes the finite supplied draws and fails with `CodeDrawsExhausted` when every attempt they allow is taken.
- PlayerService.LeaveRoom: whether the hand-off to `handlePlayerDisconnection` throws is a parameter. Spring's marking of the outer transaction as rollback-only when the inner transactional call throws is not modelled.
- The exceptions swallowed inside the cleanup helpers are not modelled. The deletion loops of `deleteRoomCompletely`, `cleanupCurrentRoundData` and `cleanupOldRoom` are modelled by their net effect on the tables.
- PlayerRepository.Select: the derived queries and their JPQL have no ORDER BY, so the database may return rows in any order. The model fixes ascending player id. That choice decides which present player `OldHost` falls back to, the order of the GAME_END messages, and which new id each moved player gets.
- VoteRepository.CountByTarget: `countVotesByTargetAndRoundId` groups without ORDER BY. The model fixes the rows in the order of each target's first vote. With ties at the top below the majority, `processInitialVoteResult`'s stable sort and `findFirst` then see this chosen order. `Tally.MajorityIsUnique` shows the order cannot matter for a majority only while the ballot has no more votes than alive players. `submitVote` does not check that the voter belongs to the room, and no contract bounds the ballot by the alive count.
- RoomLifecycle.MapToVoteInfos: SQL `GROUP BY` and the stream grouping give no defined order. The rows are modelled in order of the target's first vote.
- ClientState.Merged: the spread also adds snapshot keys that `roomInfo` does not declare; only the declared fields are modelled.
- ClientState.AppState: `gameState` and `gamePhase` are kept as opaque optional strings.
- The `fetch` of a vote goes to an outbox (`voteRequests`) instead of the network.
- GamePlay.GenerateSummary: the 50-character test and the 47-character cut count Unicode scalar values, while Java's `length()` and `substring` count UTF-16 code units. A text with characters outside the Basic Multilingual Plane is therefore cut later than Java cuts it, and Java's possible split of a surrogate pair inside the summary is not captured.
- Requests.NicknameViolations: the 2..20 `@Size` bound is checked on Unicode scalar values, not on the UTF-16 code units Bean Validation counts, so a nickname with characters outside the Basic Multilingual Plane can be accepted or refused differently.
- Requests.NicknameLengthBounds: states the size rule in the same scalar-value length, with the same gap for characters outside the Basic Multilingual Plane.
- Vote: the builder default `isFinalVote = false` is not a separate member, because every vote the services build states its flag. Likewise Player's builder default `isHost = false` (Player.java:33-35) is unobservable: both builder calls set the flag (GameRoomService.java:95 and :358).
