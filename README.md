# Tournament progression engine, modelled in Dafny

This project models the core of a tournament API: the engine that turns
match scores into standings and moves competitions forward. It covers:

- **Team statistics** (`team_stats.dfy`): the fold that turns a list of
  matches into one team's tallies. These are five outcome slots (win, win in
  overtime, draw, loss in overtime, loss), games won and lost, and score for
  and against.
- **Matches** (`matches.dfy`): create, update, reset and remove.
  - Every update re-derives completion, winner and overtime from the
    nullable score pair.
  - Update and remove enforce the owner rule on `belongId`.
- **Best-of-N series** (`series.dfy`):
  - the win threshold `(duration + 1) / 2`;
  - the map pool consumed from the front, and `matchOrder`;
  - reconciliation, which adds or removes one trailing match;
  - create, play, change and reset of the last match, the map-pool update,
    and remove.
- **Single-elimination playoffs** (`playoffs.dfy`):
  - validation of the schema and the team count;
  - pairing first against last, and re-seeding the winners;
  - advancing the bracket, and destroying the last round.
- **Group stages** (`groups.dfy`):
  - expanding the point coefficients;
  - ranking vectors, the comparator and the table sort;
  - validation of tables and games, and starting standings;
  - recomputing standings, completion and the frozen result;
  - create, add stage, add games to stage, destroy last stage, play and
    reset a game, and remove.
- **Query arguments** (`search_params.dfy`): splitting find arguments into a
  store filter and paging options.
- **The store** (`schema.dfy`, `store.dfy`):
  - The documents are maps keyed by id, plus the set of existing team ids
    and a fresh-id counter (`Schema.Db`).
  - `Store.Store` is a class that holds these maps as fields.
  - Its methods run a service operation on the current state and commit it
    only on success.

## How the model is built

Every service operation takes the store as a value (`Db`) and returns
`Result<(Db, X)>`. An error leaves the store as it was. This stands in for
the transaction wrapper that every operation of the service runs in.

Errors are a kind plus a code:
- The kinds are `BadRequest`, `Conflict`, `NotFound` and `Internal`.
- The codes are named after the message constants of
  `src/core/graphql/error-handling/messages.ts`.
- Raising a GraphQL error always throws. So a check whose error call lacks
  `return` still aborts the operation, and it is modelled that way.
- Where the code dereferences a missing document or `undefined`, the
  runtime throws a TypeError. This is modelled as `Crash` (kind
  `Internal`), and it rolls back like any other error.

Other modelling choices:
- **Ids.** Document ids are natural numbers drawn from `nextId`. Only their
  freshness matters.
- **Lookups by owner.** A lookup by `belongId` returns documents in
  ascending id order, which is creation order.
- **Composed operations.** Playoff and group play, change and reset run a
  series step first and then advance the bracket or recompute the group.
  They return that step as a ghost out-parameter `step`. Their contracts
  state the step's outcome (`Series.PlayOutcome`, `Series.ChangeOutcome`,
  `Series.ResetOutcome`), then the follow-up on the store the step left
  (`Playoffs.Upserted`, `Groups.RecomputeOutcome`). The `Store` class
  states its committed result in the services' shape (`Store.Outcome`)
  against the same predicates.
- **Loops.** The source's loops are `while` loops in methods. Each method
  is proved against a specification function or stated properties:
  - against a function: `Playoffs.RoundCouples` (`Couples`),
    `Groups.CollectSeriesStats` (`SeriesStats`), `Groups.Convolve`
    (`SumStats`), `Groups.NewStats` (`NewStatsOf`), `Series.SetMapsLoop`
    (`SetMaps`);
  - against an error function and a creation predicate:
    `Groups.CreateMatches` (`MatchesError`, `MatchesCreated`),
    `Series.CreateAll` (`CreateAllError`, `AllCreated`), both errors built
    on `FirstError`;
  - against an error function and the resulting store:
    `Groups.RemoveMatches` (`RemoveMatchesError`), `Series.RemoveSeries`
    (`Series.RemoveAllError`, `WithoutSeries`);
  - against properties rather than a function: `Groups.InsertAt` and
    `Groups.SortTable` (a permutation that is ranked and keeps tied tables
    in order), `Groups.SortTables` and `Groups.CompletionResults`
    (`SortedTables`, `SortedProgress`), `Series.CreateStartMatches` and
    `Series.RemoveMatches` (the matches created or removed, all else kept).
- **Behaviour reproduced as written:**
  - A drawn match is tallied as a loss for both sides.
  - Every team, even one not in a series, is charged a lost series when
    that series completes.
  - Winners are re-seeded by comparing their seed indices as decimal
    strings.
  - The stage lookup crashes when no stage has tables.
  - Ranking ties keep table order.
  - Playing a finished series fails with `NotFound`.
  - `changeLastMatch` accepts equal scores.
  - Completion of a playoff is never cleared.
  - `addStage` validates neither tables nor game teams.
- **Where the prose description and the code disagree, the code is
  followed.** Playing a complete series fails with kind `NotFound`
  (`SeriaIsComplete`) rather than a conflict.

## Model

| member | source | states |
|---|---|---|
| TeamStats.OutcomeSlot | src/core/utils/get-team-stats.ts:23-45 | A counted match goes to slot 0 exactly for a win without overtime, 1 for a win in overtime, 3 for a non-win in overtime and 4 for a non-win without overtime, so the draw slot 2 is never chosen |
| TeamStats.TeamStatByMatches | src/core/utils/get-team-stats.ts:4-64 | The draw slot stays 0. The four outcome slots and the two games slots each sum to the number of counted matches, and every tally is non-negative |
| TeamStats.UncountedMatchAddsNothing | src/core/utils/get-team-stats.ts:19 | A match that is incomplete, or does not involve the team, leaves the tallies unchanged |
| TeamStats.CountedMatchSlots | src/core/utils/get-team-stats.ts:24-53 | A counted match adds exactly 1 to the outcome slot of its win/overtime case and 1 to games won or lost. It adds the team's own score to score-for and the opponent's score to score-against |
| TeamStats.PlusZero | src/core/utils/get-team-stats.ts:58-62 | The all-zero starting tally is the identity of tally addition |
| TeamStats.PlusComm | src/core/utils/get-team-stats.ts:51-53 | Tally addition is commutative |
| TeamStats.PlusAssoc | src/core/utils/get-team-stats.ts:51-53 | Tally addition is associative |
| TeamStats.StepIsPlus | src/core/utils/get-team-stats.ts:8-55 | One fold step adds the single match's own tally to the accumulator |
| TeamStats.FoldConcat | src/core/utils/get-team-stats.ts:8-63 | The tally of a concatenation is the sum of the two tallies |
| TeamStats.FoldOrderIndependent | src/core/utils/get-team-stats.ts:8-63 | Two match lists with the same elements give the same tally, so the order of the matches does not matter |
| TeamStats.HeadToHeadScores | src/core/utils/get-team-stats.ts:47-50 | Over matches between two teams, one team's score-for is the other's score-against |
| TeamStats.HeadToHeadGames | src/core/utils/get-team-stats.ts:24-39 | Over decided matches between two teams, one team's games won are the other's games lost |
| TeamStats.DrawIsLossForBoth | src/core/utils/get-team-stats.ts:32-42 | A complete match with no winner counts as a lost game for both sides |
| Matches.GetWinner | src/entities/matches/matches.service.ts:24-41 | None while incomplete or tied. Otherwise the side with the higher score |
| Matches.GetOTStatus | src/entities/matches/matches.service.ts:43-59 | None exactly when incomplete. True exactly when complete and the score sum exceeds `roundsAmount` |
| Matches.Derive | src/entities/matches/matches.service.ts:120-133 | Complete exactly when both scores are present. A winner or an overtime flag implies complete. Only the three derived fields change |
| Matches.DeriveIdempotent | src/entities/matches/matches.service.ts:120-133 | Deriving an already derived match changes nothing |
| Matches.DeriveSymmetric | src/entities/matches/matches.service.ts:24-59 | Swapping home and away, with their scores, leaves winner, overtime and completion unchanged |
| Matches.NewMatch | src/entities/matches/matches.service.ts:92-101 | A new match has no score, is incomplete and consistent, and has 30 rounds. It carries the given teams, map and owner |
| Matches.Create | src/entities/matches/matches.service.ts:69-105 | Fails exactly on an empty team id, equal team ids or an unknown team. The errors are BadRequest, in that order. On success the match is stored under a fresh id and nothing else changes |
| Matches.Update | src/entities/matches/matches.service.ts:107-135 | Crash on a missing match, and Conflict ReadonlySeria exactly when the owner differs. Otherwise only that match changes: the patched field is applied and the derived fields follow |
| Matches.Reset | src/entities/matches/matches.service.ts:148-150 | Under the same guards, the match loses its score, completion, winner and overtime flag |
| Matches.Remove | src/entities/matches/matches.service.ts:137-146 | Under the same guards, returns the match and deletes exactly it |
| Matches.PlayedMatchHasWinner | src/entities/matches/matches.service.ts:107-135 | Setting an unequal score completes the match, and the higher scorer wins |
| Series.Threshold | src/entities/series/series.service.ts:32-34 | For a valid duration, a threshold of t wins means a best-of-(2t-1) series |
| Series.GetWinnerId | src/entities/series/series.service.ts:36-51 | A winner exists exactly when one side has reached the threshold. The up seed is checked first |
| Series.Leader | src/entities/series/series.service.ts:146-157 | The leader's count is the larger of the two win counts |
| Series.FirstIncompleteIndex | src/entities/series/series.service.ts:317-323 | The first incomplete listed match, or -1. Every match before it is complete |
| Series.LastCompleteIndex | src/entities/series/series.service.ts:357-363 | The last complete listed match, searched backwards, or -1. Every match after it is incomplete |
| Series.SortedMatches | src/entities/series/series.service.ts:121-128 | Present exactly when every id of `matchOrder` names one of the series' own matches, and then it lists them in that order |
| Series.Reconcile | src/entities/series/series.service.ts:53-107 | Adds one match when too few are unplayed and removes the last listed match when too many are. Otherwise only the status is settled, with complete exactly when the leader reaches the threshold. Pool plus order length is conserved, the series invariant is restored, and nothing outside the series changes |
| Series.SeriaInvFrame | src/entities/series/series.service.ts:53-107 | Work on one series keeps the invariant of every other series |
| Series.SettleByAppend | src/entities/series/series.service.ts:75-87 | Appending one unplayed match to a list one short restores "complete run then incomplete run" and "unplayed = threshold - leader" |
| Series.SettleByDrop | src/entities/series/series.service.ts:89-100 | Dropping the last match of a list one over drops an unplayed match and restores both invariants |
| Series.AddedKeepsInv | src/entities/series/series.service.ts:75-87 | After the add branch, the stored series satisfies its invariant |
| Series.RemovedKeepsInv | src/entities/series/series.service.ts:89-100 | After the remove branch, the stored series satisfies its invariant |
| Series.PlayKeepsNearlySettled | src/entities/series/series.service.ts:317-334 | Scoring the first unplayed match of a settled series leaves the list at most one unplayed match short, still ordered |
| Series.ChangeKeepsNearlySettled | src/entities/series/series.service.ts:357-377 | Rewriting the last complete match leaves the list ordered and at most one unplayed match off |
| Series.ChangeKeepsLastWin | src/entities/series/series.service.ts:357-377 | Rewriting the last complete match keeps "the deciding win is the last complete match" and keeps both win counts within the threshold |
| Series.ReopenKeepsBelowThreshold | src/entities/series/series.service.ts:382-388 | Resetting the last complete match leaves both sides below the threshold |
| Series.UnfinishedHasUnplayed | src/entities/series/series.service.ts:317-323 | A series that is not complete and satisfies the invariant has an unplayed match to score |
| Series.RewriteMatch | src/entities/series/series.service.ts:325-334 | Scores one listed match and reconciles. The result keeps the teams, owner and duration, stays within the series frame and restores the invariant. Completion and winner follow the new scores |
| Series.PlayMatch | src/entities/series/series.service.ts:284-337 | Checks in order: equal scores BadRequest, foreign owner Conflict, no pool Conflict, complete series NotFound. Then it scores the first unplayed match and keeps the invariant. It succeeds whenever the guards pass |
| Series.ChangeLastMatch | src/entities/series/series.service.ts:339-380 | Foreign owner Conflict, and no complete match NotFound SeriaIsEmpty. It rewrites the last complete match and keeps the invariant. An incomplete score reopens the series |
| Series.ResetLastMatch | src/entities/series/series.service.ts:382-388 | Same guards, including Crash when the series' matches cannot be ordered. The last complete match is cleared and the series is left open with no winner, invariant kept. It succeeds whenever the guards pass on a series with its invariant, known teams and a map pool |
| Series.StartedSeria | src/entities/series/series.service.ts:200-253 | A pool of `duration` maps splits into the used front and the stored unused suffix, so pool plus order length equals the duration |
| Series.CreateStartMatches | src/entities/series/series.service.ts:227-244 | Creates exactly threshold unplayed matches under consecutive fresh ids. Match j gets the pool's j-th map, or none without a pool. Nothing else changes |
| Series.Create | src/entities/series/series.service.ts:196-256 | Duration outside {1,3,5,7} fails BadRequest, then a pool of the wrong length fails BadRequest MapsNotMatch, then the team checks of match create apply. On success a series satisfying the invariant is stored under a fresh id |
| Series.StartedStoreSettled | src/entities/series/series.service.ts:215-253 | A freshly started series with its unplayed matches satisfies the series invariant |
| Series.StartedSeriaSettled | src/entities/series/series.service.ts:246-253 | A series whose order lists only its own unplayed matches, threshold many, is settled |
| Series.SetMapsAt | src/entities/series/series.service.ts:181-189 | The i-th listed match gets the i-th map of the pool, or none once the pool is exhausted |
| Series.SetMapsLoop | src/entities/series/series.service.ts:181-189 | The loop fails at the first listed match it may not update. Otherwise it assigns maps front to back and returns the leftover pool |
| Series.UpdateMapPool | src/entities/series/series.service.ts:159-194 | A length other than the duration fails BadRequest, and a series already begun fails Conflict. Otherwise maps go front to back along `matchOrder` and the leftover is stored, conserving pool plus order length |
| Series.SetMapsKeeps | src/entities/series/series.service.ts:181-189 | Changing maps keeps every owner and leaves unlisted matches untouched |
| Series.SetMapsKeepsInv | src/entities/series/series.service.ts:181-191 | Changing maps keeps the series invariant |
| Series.SetMapsFrame | src/entities/series/series.service.ts:181-191 | The map update touches only the series and its own matches |
| Series.RemoveMatches | src/entities/series/series.service.ts:269-277 | Deletes exactly the listed matches and nothing else |
| Series.Remove | src/entities/series/series.service.ts:258-282 | Crash when missing, and Conflict ReadonlyPlayoff exactly under a foreign owner. Otherwise every match owned by the series and the series itself are deleted |
| Series.RemovedFrame | src/entities/series/series.service.ts:258-282 | Removal leaves no match owned by the series and changes nothing outside it |
| Series.RemovedKeepsOthers | src/entities/series/series.service.ts:258-282 | Removing one series keeps every other series' invariant |
| Series.GetTeamStatByMatches | src/entities/series/series.service.ts:130-144 | Match tallies as in the fold. A complete series counts exactly one game for any team, won exactly by its winner, so non-players are charged a loss |
| Series.CompleteSeriaHasOneWinner | src/entities/series/series.service.ts:130-144 | Of a complete series' two seeds, exactly one is credited the won series |
| Series.CreateAll | src/entities/playoffs/playoffs.service.ts:70-82 | The series creation loop stops at the first failing series and reports its error. Otherwise every series is created in order under ascending fresh ids |
| Series.WithoutSeries | src/entities/series/series.service.ts:269-279 | Deletes exactly the given series and the matches they own, and keeps the store valid |
| Series.RemoveAllError | src/entities/playoffs/playoffs.service.ts:271-277 | A removal loop over series ids succeeds exactly when the ids are distinct and each may be removed |
| Series.RemoveOneMore | src/entities/playoffs/playoffs.service.ts:271-277 | Removing one more series with its matches is the same as removing the larger set at once |
| Series.RemoveSeries | src/entities/playoffs/playoffs.service.ts:271-277 | The loop fails with the first removal error. Otherwise it deletes exactly the listed series and their matches |
| Playoffs.CouplesAt | src/entities/playoffs/playoffs.service.ts:45-48 | The i-th pair is the i-th team against the i-th from the end |
| Playoffs.UnpairedCouples | src/entities/playoffs/playoffs.service.ts:39-51 | Pairing first against last, inward, loses and repeats no team |
| Playoffs.RoundCouples | src/entities/playoffs/playoffs.service.ts:39-51 | The while loop returns no pairs for an odd count, and otherwise the first-against-last pairing |
| Playoffs.IndexOf | src/entities/playoffs/playoffs.service.ts:55 | The first position of the team, or -1 |
| Playoffs.StrLeTotal | src/entities/playoffs/playoffs.service.ts:56 | String order is total, so the default sort order is well defined |
| Playoffs.SortedTeamsPermutation | src/entities/playoffs/playoffs.service.ts:53-58 | Re-seeding returns a permutation of the winners |
| Playoffs.SortedTeamsOrdered | src/entities/playoffs/playoffs.service.ts:53-58 | The re-seeded winners are ordered by their seed index written in decimal and compared as a string |
| Playoffs.TenBeforeTwo | src/entities/playoffs/playoffs.service.ts:56 | Seed indices compared as strings put 10 before 2 |
| Playoffs.TenthIndexBeforeSecond | src/entities/playoffs/playoffs.service.ts:56 | Winners with seed indices 2 and 10 come out as 10 before 2 |
| Playoffs.CreateNewRound | src/entities/playoffs/playoffs.service.ts:60-87 | One series per pair, of duration `schema[progress.length]`. The round is appended to the progress, or the first failing series' error is returned |
| Playoffs.SeriesByIds | src/entities/series/series.service.ts:113-115 | The query by id list yields exactly the stored listed series, without repeats |
| Playoffs.NewRoundInv | src/entities/playoffs/playoffs.service.ts:67-86 | Appending a round of the right size of fresh series keeps the bracket's shape |
| Playoffs.UpsertSeries | src/entities/playoffs/playoffs.service.ts:89-122 | Nothing changes while a series of the round is open. A finished single series completes the playoff with its winner. Otherwise the next round is built from the re-seeded winners. The bracket shape is kept |
| Playoffs.AdvanceRound | src/entities/playoffs/playoffs.service.ts:107-118 | The next round is built from the finished round's winners, re-seeded and paired. The bracket shape is kept |
| Playoffs.LastRoundFound | src/entities/playoffs/playoffs.service.ts:132-136 | In a well-shaped bracket the current round's series are all found, 2^(K-n) of them |
| Playoffs.NextRoundInv | src/entities/playoffs/playoffs.service.ts:107-118 | With 2^K teams, the round after round j holds half as many series. Progress never exceeds the schema length, and every schema index used is in bounds |
| Playoffs.SeriaCheck | src/entities/playoffs/playoffs.service.ts:186-190 | No error exactly when the series is in the last round |
| Playoffs.SeriaStepKeepsInv | src/entities/playoffs/playoffs.service.ts:192-199 | A result written to one series keeps the bracket's shape |
| Playoffs.PlayMatch | src/entities/playoffs/playoffs.service.ts:174-202 | BadRequest InvalidSeriaId when the series is not in the last round (Crash for a missing playoff or round). Past that check the returned ghost `step` is the series play with owner the playoff, stated by `Series.PlayOutcome`: its errors (equal scores, readonly, empty pool, complete series) are returned as they are; on success the bracket step `Playoffs.Upserted` is taken from the store the play left. Teams and schema are unchanged, progress grows by at most one round, completion is never cleared, and the bracket keeps its shape |
| Playoffs.ChangeLastMatch | src/entities/playoffs/playoffs.service.ts:204-232 | Same guard. Past it the ghost `step` is the rewrite of the series' last complete match to the given score (`Series.ChangeOutcome`), whose errors are returned as they are; on success the bracket step `Playoffs.Upserted` follows. The same advance guarantees hold |
| Playoffs.ResetLastMatch | src/entities/playoffs/playoffs.service.ts:234-256 | Same guard. Past it the ghost `step` clears the series' last complete match and leaves the series open (`Series.ResetOutcome`), whose errors are returned as they are; on success the bracket step `Playoffs.Upserted` follows. The same advance guarantees hold, so completion stays set |
| Playoffs.DestroyLastRound | src/entities/playoffs/playoffs.service.ts:258-288 | Fails exactly with Conflict CannotRemoveRound under two rounds, or with the first series removal error. Otherwise the round's series and their matches are deleted and the round is dropped, status untouched. On a well-shaped bracket it always succeeds and keeps the shape |
| Playoffs.LastRoundRemovable | src/entities/playoffs/playoffs.service.ts:271-277 | In a well-shaped bracket every series of the current round can be removed on the playoff's behalf |
| Playoffs.DestroyKeepsInv | src/entities/playoffs/playoffs.service.ts:279-285 | Dropping the last of two or more rounds keeps the bracket's shape |
| Playoffs.Remove | src/entities/playoffs/playoffs.service.ts:290-303 | Deletes the playoff, every series it owns and their matches, and returns the playoff if there was one |
| Playoffs.OwnedRemovable | src/entities/playoffs/playoffs.service.ts:294-298 | Every series the playoff owns can be removed on its behalf |
| Playoffs.Create | src/entities/playoffs/playoffs.service.ts:138-172 | An invalid schema (empty, or an entry outside {1,3,5,7}) fails, then a team count other than 2^rounds fails, both BadRequest. Otherwise the first round is created from the seeding and the bracket has its shape |
| Playoffs.FirstRoundCreated | src/entities/playoffs/playoffs.service.ts:158-169 | The first round of a valid playoff makes the store valid and the bracket well shaped |
| Playoffs.FirstRoundInv | src/entities/playoffs/playoffs.service.ts:35-37 | A first round of 2^(K-1) fresh series over 2^K teams has the bracket's shape |
| Groups.ExpandKoeffs | src/entities/groups/groups.service.ts:46-75 | Two coefficients give [a,a,0,b,b], three give [a,a,b,c,c] and four give [a,b,0,c,d]. Any other length is kept |
| Groups.Dot | src/entities/groups/groups.service.ts:94-103 | Defined exactly when the expanded coefficients cover the tally |
| Groups.PointsDefined | src/entities/groups/groups.service.ts:94-103 | Points are a number exactly when there are at least two coefficients |
| Groups.PointsAdd | src/entities/groups/groups.service.ts:94-103 | Points are linear: the points of a summed tally are the sum of the points |
| Groups.DefaultPointsAreWins | src/entities/groups/groups.service.ts:409-419 | Under the default coefficients [1,0], points are the number of wins |
| Groups.RangeCriteria | src/entities/groups/groups.service.ts:77-112 | One entry per criterion, in order: Points gives the points, Wins gives games won, and any other criterion gives the seed |
| Groups.FirstDiff | src/entities/groups/groups.service.ts:217-225 | The first non-zero difference between two ranking vectors, or none when no position differs |
| Groups.FirstDiffAntisymmetric | src/entities/groups/groups.service.ts:217-225 | Swapping the two teams negates the comparator |
| Groups.FirstDiffLex | src/entities/groups/groups.service.ts:217-225 | On defined vectors the comparator ranks the second team first exactly when its vector is lexicographically above. It gives no preference exactly when the vectors are equal |
| Groups.Compare | src/entities/groups/groups.service.ts:217-225 | Crashes exactly when the second team has no standing, or the first has none and the second has ranking values; a first team without a standing and a second with none compare as undecided |
| Groups.InsertRanked | src/entities/groups/groups.service.ts:217-225 | Inserting a team between neighbours it does not go after keeps a table ranked |
| Groups.InsertAt | src/entities/groups/groups.service.ts:302-306 | One insertion step moves the team left past every team that goes after it, and stops at one that does not |
| Groups.SortTable | src/entities/groups/groups.service.ts:302-306 | Returns a permutation of the table, ranked by the comparator. A fully tied table keeps its order; a table of at most one team is returned as it is. It crashes only when the table holds a team without a standing, and never when every team has one |
| Groups.StartingStats | src/entities/groups/groups.service.ts:160-173 | One starting standing per listed team |
| Groups.StartingSeed | src/entities/groups/groups.service.ts:160-173 | The team at position i is seeded i+1 and has zero tallies |
| Groups.CheckTablesMeaning | src/entities/groups/groups.service.ts:175-181 | Tables pass exactly when there is at least one, every id is a member, and no id repeats in one table or across tables |
| Groups.GetStageInfo | src/entities/groups/groups.service.ts:227-236 | Crash exactly when no stage has tables. Otherwise the current stage's games with the latest tables |
| Groups.StageCompleteMeaning | src/entities/groups/groups.service.ts:197-215 | A stage is complete exactly when every match and series of the group listed in it is complete |
| Groups.CollectSeriesStats | src/entities/groups/groups.service.ts:266-272 | Collects one series statistic per group series |
| Groups.Convolve | src/entities/groups/groups.service.ts:238-246 | The accumulator ends as the element-wise sum of all the statistics |
| Groups.SeriesGamesCharged | src/entities/groups/groups.service.ts:266-272 | Every complete series adds one game to every team's tally |
| Groups.GamesCharged | src/entities/groups/groups.service.ts:248-289 | A team's recomputed games are its counted direct matches plus the number of complete group series |
| Groups.StandingRanking | src/entities/groups/groups.service.ts:274-289 | A standing has one ranking value per criterion, all defined for a seeded team with at least two coefficients |
| Groups.NewStatsOf | src/entities/groups/groups.service.ts:248-295 | The listed teams get freshly recomputed standings and every other team keeps its standing |
| Groups.NewStats | src/entities/groups/groups.service.ts:258-291 | The loop over teams produces exactly those standings |
| Groups.SortTables | src/entities/groups/groups.service.ts:297-310 | Every table is sorted as a permutation that is ranked and keeps ties in order. It crashes only when a table holds a team without a standing, and never when every team has one |
| Groups.CompletionResults | src/entities/groups/groups.service.ts:297-310 | Every stage's tables are sorted in place and a null table list stays null |
| Groups.UpdateGroup | src/entities/groups/groups.service.ts:312-333 | Stores the group with recomputed standings. It is complete exactly when the current stage is complete and it is the last planned stage. The frozen sorted result is set exactly on completion. It fails only with Crash: when no stage has tables, or on completion with a table team missing a standing; it never fails when the tables' teams all have standings |
| Groups.CreateMatches | src/entities/groups/groups.service.ts:125-139 | Match creation stops at the first failing match. Otherwise the matches are stored in order under consecutive fresh ids |
| Groups.AddGames | src/entities/groups/groups.service.ts:114-158 | With no game lists the group is returned unstored. Otherwise its matches and series are created, owned by the group, and their ids are pushed onto the current stage. The group is stored, or the first creation error is returned |
| Groups.CreateErrorMeaning | src/entities/groups/groups.service.ts:385-407 | Validation passes exactly when there are teams, all exist, the tables pass their check and every game is between members. Of several unknown teams, the one listed first is reported |
| Groups.Create | src/entities/groups/groups.service.ts:373-426 | Validation errors come first, in order. Past validation, a create without game lists always succeeds, and one with games fails exactly with the first games error. On success (`GroupCreated`) a new group is stored under a fresh id with one stage of the given tables, the defaults (1 stage, Points, [1,0]) and starting standings, incomplete with no result; given games are created, owned by it and listed on that stage |
| Groups.AddStage | src/entities/groups/groups.service.ts:428-456 | The service as written: Conflict LastGroupStage, then Conflict IncompleteGroupStage. With no games the store is returned unchanged, one stage behind the returned group. With games they are created, owned by the group and listed on the pushed stage (`GamesAdded`), or the first creation error is returned |
| Groups.AddStageStored | src/entities/groups/groups.service.ts:428-456 | The same checks, after which the group is always stored with one more stage of the given tables, carrying the given games as in `GamesAdded`. Earlier stages and standings are unchanged |
| Groups.AddGamesToStage | src/entities/groups/groups.service.ts:458-477 | Games between non-members fail BadRequest, matches checked first; then a creation error is returned exactly when one exists. Otherwise the games are created, owned by the group and listed on its current stage (`GamesAdded`), with stages, standings and status unchanged |
| Groups.RemoveMatchesError | src/entities/groups/groups.service.ts:494-500 | The match removal loop succeeds exactly when the ids are distinct and each may be removed by the group |
| Groups.RemoveMatches | src/entities/groups/groups.service.ts:494-500 | The loop fails with the first removal error. Otherwise it deletes exactly the listed matches |
| Groups.GamesRemovedMeaning | src/entities/groups/groups.service.ts:494-508 | Removing a stage's games deletes its listed series and matches, and touches nothing else but the removed series' own matches |
| Groups.DestroyLastStage | src/entities/groups/groups.service.ts:479-515 | Crash when missing, and Conflict CannotRemoveStage under two stages. Past those checks and the removals, it fails only with Crash and only where the recompute throws (`RecomputeMayFail`): no remaining stage has tables, or the group completes with a team missing a standing. Otherwise the stage's games are removed, the stage is dropped and the group is recomputed over the remaining games (`Refreshed`) |
| Groups.PlayGroupGame | src/entities/groups/groups.service.ts:517-567 | Tries the stage's matches first, then its series. The errors of `PlayError` are returned: a missing group or stage, a match the update refuses, an unlisted game (BadRequest IncorrectGroupGame), equal series scores. Past them `PlayFlow` holds: a listed match is updated with the score; for a series the ghost `step` is the series play (`Series.PlayOutcome`: under the series invariant the first unplayed match gets the score) and its errors are returned as they are; then the recompute (`RecomputeOutcome`) either stores the refreshed group or fails with Crash, only when the group completes with a team missing standings. On success (`GamePlayed`) a listed match carries the score and the group is recomputed for the two teams: new standings, complete exactly when the stage is done and it is the last, sorted frozen result on completion (`Refreshed`) |
| Groups.ResetGroupGame | src/entities/groups/groups.service.ts:569-613 | Same dispatch and the errors of `ResetError`. Past them `ResetFlow` holds: a listed match is cleared; for a series the ghost `step` is the series reset (`Series.ResetOutcome`: under the series invariant the last complete match is cleared and the series is open again) and its errors are returned as they are; then the recompute's outcome as for play. On success (`GameReset`) a listed match has no score and is incomplete, and the group is recomputed for the two teams as in `Refreshed` |
| Groups.OwnedGamesRemovable | src/entities/groups/groups.service.ts:615-642 | Every match and series the group owns can be removed on its behalf |
| Groups.Remove | src/entities/groups/groups.service.ts:615-642 | Deletes the group with every match and series it owns, and the series' matches |
| SearchParams.FieldName | src/core/graphql/utils/get-search-params.ts:28-29 | `id` becomes `_id` and every other name is kept |
| SearchParams.FieldNameProperties | src/core/graphql/utils/get-search-params.ts:28-29 | Renaming is idempotent, and only `id` and `_id` collide |
| SearchParams.FilteredFields | src/core/graphql/utils/get-search-params.ts:34-47 | The fields named by an operator are exactly those some operator decides |
| SearchParams.GetArgs | src/core/graphql/utils/get-search-params.ts:31-50 | The filter holds the plain fields plus the operator fields. An operator field holds its last operator's value, and every other field passes through unchanged |
| SearchParams.GetSearchParams | src/core/graphql/utils/get-search-params.ts:6-26 | Skip, sort and limit reach the options exactly when given and non-zero. The filter is as in GetArgs, and a reserved key appears only when an operator names it |
| SearchParams.LastOperatorWins | src/core/graphql/utils/get-search-params.ts:34-47 | For one field `_like` overrides `_in` and `_nin`, `_nin` overrides `_in`, and `id` itself never reaches the filter |
| Store.Store.CreateMatch | src/entities/matches/matches.service.ts:69-105 | Fails exactly when the create error is set (an empty, equal or unknown team id), then with that error and nothing committed; otherwise commits the new match under a fresh id |
| Store.Store.UpdateMatch | src/entities/matches/matches.service.ts:107-135 | Crash for a missing match and Conflict ReadonlySeria for an owned one (the API caller owns nothing), with nothing committed. On success only that match changes: it is the match with the patch applied and its completion follows its score. The committed outcome equals `Matches.Update` on the old store |
| Store.Store.RemoveMatch | src/entities/matches/matches.service.ts:137-146 | Crash for a missing match and Conflict ReadonlySeria for an owned one. Otherwise exactly that match is deleted; the committed outcome equals `Matches.Remove` on the old store |
| Store.Store.CreateSeria | src/entities/series/series.service.ts:196-256 | Commits the new series and its starting matches exactly as `Series.Started` states (fresh id, the series and its first matches, nothing else changed), keeping the series invariant, with the pool split between stored pool and matches; or nothing with the create error |
| Store.Store.PlaySeriaMatch | src/entities/series/series.service.ts:284-337 | The committed outcome satisfies `Series.PlayOutcome` with no owner: every error of the play in order, and under the series invariant the first unplayed match scored. Success touches only the unowned series and keeps its invariant |
| Store.Store.ChangeSeriaLastMatch | src/entities/series/series.service.ts:339-380 | The committed outcome satisfies `Series.ChangeOutcome` with no owner: the errors in order, and under the invariant the last complete match rewritten. Success touches only the unowned series and keeps its invariant |
| Store.Store.ResetSeriaLastMatch | src/entities/series/series.service.ts:382-388 | The committed outcome satisfies `Series.ResetOutcome` with no owner: the errors in order, and under the invariant the last complete match cleared. Success keeps the invariant and leaves the series open |
| Store.Store.UpdateMapPool | src/entities/series/series.service.ts:159-194 | Crash for a missing series, BadRequest for a pool of the wrong length, Conflict once the series has begun, and the order error exactly when one exists. On success the series stores the leftover pool and its matches get the maps along `matchOrder`; nothing else changes |
| Store.Store.RemoveSeria | src/entities/series/series.service.ts:258-282 | Crash for a missing series and Conflict ReadonlyPlayoff for an owned one, with nothing committed. Otherwise the series and the matches it owns are deleted and nothing else changes |
| Store.Store.CreatePlayoff | src/entities/playoffs/playoffs.service.ts:138-172 | Commits the blank playoff under the next id with its first round built from the seeded couples (`Playoffs.Created`, through `Playoffs.NewRound`), a well-shaped bracket; or nothing with the create error |
| Store.Store.PlayPlayoffMatch | src/entities/playoffs/playoffs.service.ts:174-202 | The series check's error, then equal scores refused. Past the check the ghost `step` satisfies `Series.PlayOutcome` with the playoff as owner, its errors are returned, and on success the committed outcome is the bracket step `Playoffs.Upserted` from the store the play left. The advanced playoff keeps its shape and decides rounds as `Playoffs.Decided` says |
| Store.Store.ChangePlayoffLastMatch | src/entities/playoffs/playoffs.service.ts:204-232 | The series check's error. Past it the ghost `step` satisfies `Series.ChangeOutcome`, its errors are returned, and on success the committed outcome is `Playoffs.Upserted` from the store the rewrite left. Shape kept and rounds decided as `Playoffs.Decided` says; on error nothing is committed |
| Store.Store.ResetPlayoffLastMatch | src/entities/playoffs/playoffs.service.ts:234-256 | The series check's error. Past it the ghost `step` satisfies `Series.ResetOutcome`, its errors are returned, and on success the committed outcome is `Playoffs.Upserted` from the store the reset left. Shape kept and rounds decided as `Playoffs.Decided` says; on error nothing is committed |
| Store.Store.DestroyLastRound | src/entities/playoffs/playoffs.service.ts:258-288 | The destroy error with nothing committed. Otherwise the last round's series and their matches are deleted and the playoff keeps its earlier rounds; nothing else changes. It always succeeds on a well-shaped bracket of two or more rounds |
| Store.Store.RemovePlayoff | src/entities/playoffs/playoffs.service.ts:290-303 | The committed store is the old one without the playoff, the series it owns and their matches; the removed playoff is returned when it existed |
| Store.Store.CreateGroup | src/entities/groups/groups.service.ts:373-426 | The validation error and nothing committed. Past validation, a create without game lists always succeeds, and one with games fails exactly with the first games error. On success the new group with its games is committed as `Groups.GroupCreated` states |
| Store.Store.AddGroupStage | src/entities/groups/groups.service.ts:428-456 | The service as written: the stage checks' errors; with no games the pushed group is returned and nothing is committed; with games the creation error exactly when one exists, else the group with the pushed stage and its games committed (`Groups.GamesAdded`) |
| Store.Store.AddGamesToGroupStage | src/entities/groups/groups.service.ts:458-477 | Crash for a missing group, BadRequest for games between non-members, then the creation error exactly when one exists; on success the games are committed and listed on the current stage (`Groups.GamesAdded`), standings and status unchanged |
| Store.Store.DestroyLastGroupStage | src/entities/groups/groups.service.ts:479-515 | The destroy error with nothing committed. Any later failure is Crash, and only where the recompute throws (`Groups.RecomputeMayFail` over the store without the stage's games). On success the store is the one `Groups.StageDestroyed` states: the last stage's games deleted, the group cut to its earlier stages and recomputed (`Refreshed`) |
| Store.Store.PlayGroupGame | src/entities/groups/groups.service.ts:517-567 | The errors of `Groups.PlayError` with nothing committed. Past them the ghost `step` and the committed outcome satisfy `Groups.PlayFlow`: the match update or the series play, its errors as they are, and the recompute's Crash. On success the played game and the recomputed group are committed as `Groups.GamePlayed` states |
| Store.Store.ResetGroupGame | src/entities/groups/groups.service.ts:569-613 | The errors of `Groups.ResetError` with nothing committed. Past them the ghost `step` and the committed outcome satisfy `Groups.ResetFlow`: the match reset or the series reset, its errors as they are, and the recompute's Crash. On success the reset game and the recomputed group are committed as `Groups.GameReset` states |
| Store.Store.RemoveGroup | src/entities/groups/groups.service.ts:615-642 | The committed store is the old one without the group, the matches it owns, the series it owns and their matches; the removed group is returned when it existed |

## Left out

- Persistence (the Mongoose database services) is replaced by maps in `Schema.Db`. A query by owner returns documents in ascending id order.
- Transactions and sessions are not modelled, including the commits in the middle of a cascade at `src/entities/groups/groups.service.ts:539, 552, 586, 598`. Every operation is all-or-nothing.
- The unawaited series removals in playoff `remove` are modelled as a plain cascade, because their interleaving is a concurrency artefact.
- GraphQL resolvers, module wiring and logging are not modelled. Error construction keeps only the kind and the message code.
- Team CRUD is not modelled. Only team existence matters, so the teams are a set of ids.
- `getSortingTables` is not modelled, because it fetches teams (I/O). Its sort reuses the comparator modelled by `Groups.SortTable`.
- The JavaScript sort is modelled as a stable insertion sort, so calls to the comparator are not counted.
- The `_like` pattern is kept as its source text, because `new RegExp` is a foreign call. An invalid pattern, which throws, is not modelled.
- A `NaN` or other non-integer `_skip`, `_sort` or `_limit` is not modelled. Only integers and absence are.
- SearchParams.GetSearchParams: the reserved keys leave the filter only when no operator names them. The proof assumes the entity fields never reuse a reserved name.
- Matches.Create: a caller-supplied score, `roundsAmount`, winner, completion or overtime flag overriding the defaults is not modelled. The engine's own callers pass only teams, map and owner.
- Numbers are integers, while the source's fields are JavaScript numbers: match `score` and `roundsAmount`, series `duration`, group `stages`, `pointKoeffs`, the standings' `points` and the `rangeCriteria` ranking values. Fractional point coefficients, fractional points and ranking values, and float rounding are not modelled.
- Playoffs.RoundDuration: past the end of the schema the source reads an undefined schema entry and passes an undefined duration to series create. There the destructuring default makes the checks and the starting matches best-of-one, but the spread `...seriesInfo` stores `undefined` as the duration (`src/entities/series/series.service.ts:200-221`). The model gives `None`, and series create stores the default 1. A well-shaped bracket (`Playoffs.PlayoffInv`) never reaches this case, because its rounds stop at the schema's length.
- A group created with `stages: null` is not modelled. The spread in `create` would store `null` over the default. The model takes the stage count as given or defaults it to 1.
- A seed that is undefined for a team the group never seeded is `None`. So are points that are NaN because the coefficient list is too short, and the ranking values derived from them. Comparisons on `None` follow the source's falsy difference.

## Findings

| source | as written | input that shows it | evidently intended | confidence | as-written member | corrected member |
|---|---|---|---|---|---|---|
| src/entities/groups/groups.service.ts:451-453 | The new stage is pushed onto the fetched group and stored only by `addGames`. That returns early when no matches and no series are given (line 123), so nothing is written | `addStage(groupId, {}, tables)` on a group whose current stage is complete and has fewer stages than planned | The new stage is stored whether or not games are given | not executed | Groups.AddStage | Groups.AddStageStored |
