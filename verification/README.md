# Fantasy World Cup: a verified model

The repository is the backend of a fantasy-football game. This project models the rules that the backend keeps in its
database and proves what they are for. Stored tables are sequences and maps, database calls are sequential steps,
money is in hundredths of a million and times are integers. Where the services update stored rows in place, a class
does the same with loops and assignments and is proved against a specification function; the theorems are about these
functions and about runs of operations. What a function computes is also stated without it, in numbers, sums and map
lookups. Automatic induction is off in every lemma.

| files | what they model |
|---|---|
| `RoundRobin`, `HeadToHead`, `HeadToHeadScores`, `HeadToHeadTable`, `Average` | fixture generation by the circle method, the standings ledger, what a resolution stores, the table |
| `Cup`, `CupScores` | the knockout cup with draws, byes and tie-breaks, and what a finalisation stores |
| `SquadPick`, `SquadLines`, `ShortSupply` | cheapest lines of a squad under a club limit, when they are found, and a list on which they are not |
| `MatchEvents`, `MatchPoints`, `Participants`, `Scoring`, `ScoreOps`, `Recompute`, `ScoringService` | derived events and what they are worth, minutes, score logs and totals, the incremental and the full path, failing runs |
| `StableSort`, `Leaderboards`, `TeamTotals` | ranked boards, and what stored totals add up |
| `Squads`, `LawfulSquads`, `SquadRefusals`, `Picks`, `ChipState`, `ChipExpiry`, `TeamOps`, `TeamAnswers`, `ChipRules`, `SquadRuns`, `TransferRuns`, `FreeHitRuns`, `FreeHitEnds`, `SampleSeason`, `FantasyService` | squads, transfers, chips and the Free Hit of one team |
| `DeadlineLock`, `LockAnswers`, `MatchdayFeed` | locks with squad snapshots, deadlines from kickoffs |
| `Csv`, `PriceText`, `PriceReading`, `PriceSheet`, `PriceColumns`, `PriceUpload` | the price sheet, written and read back |

## Where the code does less than it means to

Each is stated with the exact condition under which the code does what it is for, most of them with a concrete input.

- A recompute that fails between removing empty logs and writing totals can leave a player stale for good
  (`Recompute.FailureAfterPruningStays`, `Recompute.HealsExactlyWhen`).
- Deleting one event after a recompute that failed earlier removes the fixture's events of every other player
  whose log is still recorded empty (`ScoreOps.DeleteOneTakes`, `Recompute.DeletionAfterFailure`,
  `Recompute.DeletionTakesAnother`).
- A Free Hit ends in two ways. Synchronisation in a later matchday restores the picks, but budget, free transfers, name
  and formation are overwritten by the row held in memory. Deactivation does not synchronise first and restores neither;
  in the matchday of the activation it gives the use back as well (`FreeHitEnds.FreeHitEndsExactly` for both ends and
  any run between, `FreeHitEnds.MoneySurvivesFreeHit`, `FreeHitEnds.PlayerSurvivesDeactivation`, and concrete runs in
  `SampleSeason`). The undo itself is proved for `restoreFreeHitSnapshot`.
- A Free Hit that finds a snapshot locked under Triple Captain brings the tripled captain back
  (`FreeHitEnds.ReusedSnapshotTriples`, `ChipRules.EndIsRightExactlyWhen`).
- With two or more free transfers used transfers are counted twice (`TransferRuns.ChargedTooEarly`,
  `TransferRuns.HitsLawExactlyWhen`). A new team has one, and runs only reach zero and one
  (`TransferRuns.FreeTransfersStay`).
- Picking a squad line by line can fail although a squad exists. It succeeds exactly when, counted club by club, every
  list has enough openings after the lines before it (`SquadLines.SquadBuilder.PickSquad`). Goalkeepers of two clubs,
  defenders of five, midfielders and forwards of seven always suffice (`SquadLines.EnoughClubsComplete`); forwards of six
  do not (`ShortSupply.OneClubShort`).
- Uploading a downloaded price sheet deletes players whose price is zero (`PriceSheet.UploadOfDownload`).

## Model

| member | source | states |
|---|---|---|
| RoundRobin.RoundRobinTheorem | src/modules/leagues/leagues.service.ts:1361-1420 | For any number of distinct teams (one Average slot added when odd) the n-1 generated rounds hold every unordered pair exactly once, every participant plays once per round and n-1 times in all, and nobody meets itself. |
| RoundRobin.RoundIsPerfectMatching | src/modules/leagues/leagues.service.ts:1383-1419 | In every round each slot holder plays in exactly one fixture. |
| RoundRobin.FixtureAt | src/modules/leagues/leagues.service.ts:1383-1419 | The k-th fixture of every round, whole: which team of the given order is at home, which one away, the matchday, and whether it is an Average fixture. |
| RoundRobin.SlotAfterRotations | src/modules/leagues/leagues.service.ts:1413-1419 | Where pop-and-splice puts the participant of any original slot after r rounds: slot 0 stays, the others move round a cycle of n-1 slots. |
| RoundRobin.MeetingRound | src/modules/leagues/leagues.service.ts:1383-1419 | Two slots are opposite each other in exactly one of the n-1 rounds; rests on n-1 being odd. |
| RoundRobin.ScheduleIsSound | src/modules/leagues/leagues.service.ts:1390-1412 | A generated fixture joins two different participants of the league in a round and on the matchday of that round, is unplayed, and is an Average fixture exactly when one side is Average. |
| RoundRobin.GenerateFixtures | src/modules/leagues/leagues.service.ts:1361-1420 | The loops produce exactly the circle-method schedule; the call fails exactly when there are fewer matchdays than rounds. |
| RoundRobin.PairRound | src/modules/leagues/leagues.service.ts:1390-1413 | The pairing loop yields the fixtures between opposite slots. |
| RoundRobin.RotateSlots | src/modules/leagues/leagues.service.ts:1414-1419 | Pop and splice rotate all slots but the first. |
| HeadToHead.GeneratedSeason | src/modules/leagues/leagues.service.ts:1310-1473 | Whatever was stored before, once a league is generated and the n-1 matchdays it uses are resolved, in any order and repetition, every participant (Average included) has played n-1 matches and league-wide points for equal points against, wins equal losses. |
| HeadToHead.SeasonTheorem | src/modules/leagues/leagues.service.ts:1482-1653 | The same for any stored league whose fixtures form a round robin. |
| HeadToHead.StoredSeason | src/modules/leagues/leagues.service.ts:1310-1653 | The same for the stored rows: in a ledger whose rows are the sums of its fixtures, after generation and the resolutions every row of the league holds n-1 matches that add up to W, D, L and 3W + D points, and the stored columns balance over the league. |
| HeadToHead.RowArithmetic | src/modules/leagues/leagues.service.ts:1575-1640 | For any set of finalised fixtures, a row that sums them has played = W + D + L and league points = 3W + D. |
| HeadToHead.LeagueConservation | src/modules/leagues/leagues.service.ts:1544-1640 | Over the participants of a league, points for and against balance, and so do wins and losses, as long as fixtures join participants of the league. |
| HeadToHead.ResolvingAgainDoesNothing | src/modules/leagues/leagues.service.ts:1544-1588 | Resolving a resolved matchday again, with whatever scores, changes no fixture. |
| HeadToHead.ResolvingCommutes | src/modules/leagues/leagues.service.ts:1482-1653 | Two different matchdays can be resolved in either order. |
| HeadToHead.RunKeepsPairings | src/modules/leagues/leagues.service.ts:1544-1653 | Over a run of resolutions pairings stay, and a fixture is finalised exactly when it was before or its matchday was reached. |
| HeadToHead.Ledger.Generate | src/modules/leagues/leagues.service.ts:1310-1473 | Old fixtures and rows of the league go first, even when generation then fails; on success the league holds exactly the new schedule and one zero row per participant, and other leagues keep theirs. |
| HeadToHead.Ledger.ResolveMatchday | src/modules/leagues/leagues.service.ts:1482-1653 | Keeps every row equal to the sum of its finalised fixtures while the rows are incremented in place, and finalises exactly the upcoming fixtures of the matchday. |
| HeadToHead.Ledger.ResolveOne | src/modules/leagues/leagues.service.ts:1544-1640 | One fixture: outcome, winner, and both rows (the Average row through its own branch) stay the sum of finalised fixtures. |
| HeadToHead.CreditBothBalances | src/modules/leagues/leagues.service.ts:1575-1640 | Crediting both sides of a fixture that has just been finalised restores row = sum for every row. |
| HeadToHead.InstalledFixtures | src/modules/leagues/leagues.service.ts:1420-1473 | A generation leaves exactly its schedule as the fixtures of the league, and every other league with the fixtures it had. |
| HeadToHeadScores.StoredResults | src/modules/leagues/leagues.service.ts:1553-1582 | A resolution finalises exactly the upcoming fixtures of the matchday: each side scores the matchday points of its team, zero without a team, the average for Average, and the winner is the membership with strictly more points. Read off the leaderboard maps, without the scoring functions. |
| HeadToHeadScores.StoredRow | src/modules/leagues/leagues.service.ts:1575-1640 | The row of a side gets one more match from these two scores: for, against, three points and a win, one and a draw, or none and a loss. |
| HeadToHeadScores.OtherRow | src/modules/leagues/leagues.service.ts:1575-1640 | The row of anybody without an upcoming fixture in the matchday stays. |
| HeadToHeadTable.RankStandings | src/modules/leagues/leagues.service.ts:1724-1748 | The in-place sort and numbering leave the ranked table of the rows. |
| HeadToHeadTable.TableTheorem | src/modules/leagues/leagues.service.ts:1724-1748 | The table is a permutation of the rows, ordered by points, difference and points for, ranked from one; ranking it again changes nothing. |
| HeadToHeadTable.TiesKeepTheirOrder | src/modules/leagues/leagues.service.ts:1724-1743 | Rows tied on all three criteria stay in loading order. |
| Average.RoundedIsNearest | src/modules/leagues/leagues.service.ts:1520-1525 | The rounded average is a nearest integer of sum / count, halves going up. |
| Average.AverageScore | src/modules/leagues/leagues.service.ts:1174-1179 | The reduce-and-round loop returns that average, and 0 for no scores. |
| Cup.KnockoutTheorem | src/modules/leagues/leagues.service.ts:1112-1274 | From a draw of n >= 2 active entries, for all shuffles, scores, ties, late entries and fantasy teams that come and go between finalisations, one finalisation per consecutive matchday keeps the cup live before the ceil(log2 n)-th and completes it there: one drawn entry is WINNER and lost no fixture, every other one is ELIMINATED and lost exactly one, and n-1 fixtures were not byes. |
| Cup.CeilLog2IsLeast | src/modules/leagues/leagues.service.ts:1246-1254 | The number of rounds is the least k with n <= 2^k. |
| Cup.RoundHalves | src/modules/leagues/leagues.service.ts:1182-1235 | One round leaves half of the entries, rounded up, as winners; every other entry loses once, byes lose nobody. |
| Cup.BetterSideAdvances | src/modules/leagues/leagues.service.ts:1201-1221 | The side with more points in the matchday advances, a side without a team counting as average; then more points overall, then the home side; the other side is the loser. |
| CupScores.StoredScores | src/modules/leagues/leagues.service.ts:1174-1221 | Of any finalisation, read off the boards: both scores of every fixture it decides (points of the team, zero if not listed, the nearest integer to the mean of the active entries without a team; a bye stores its own points or zero), the side with more of them as the winner, on a tie the one with more points overall, then home; every other fixture stays. |
| CupScores.DrawnPairs | src/modules/leagues/leagues.service.ts:1112-1147 | The draw pairs the shuffled entries two by two in the given order, an odd one getting a bye. |
| CupScores.StoredRounds | src/modules/leagues/leagues.service.ts:1233-1274 | The round is marked completed; with several fixtures the next round, on the next matchday, pairs what is shuffled two by two, with one the cup is completed. |
| CupScores.StoredStatuses | src/modules/leagues/leagues.service.ts:1222-1254 | Exactly the losers of fixtures with two sides are eliminated, the winner of the only fixture is WINNER, and no other status changes. |
| Cup.FinalizeStage | src/modules/leagues/leagues.service.ts:1112-1274 | One finalisation takes a cup with k rounds decided and m entries alive to k+1 rounds and ceil(m/2) alive, or crowns the champion. |
| Cup.KnockoutCup.FinalizeMatchday | src/modules/leagues/leagues.service.ts:1112-1274 | The method on the stored cup does exactly what the specification function says: draw, resolve, crown or pair the next round. |
| Cup.KnockoutCup.ResolveRound | src/modules/leagues/leagues.service.ts:1174-1230 | Resolves the undecided fixtures of the round and eliminates exactly their losers. |
| Cup.KnockoutCup.CreateFixtures | src/modules/leagues/leagues.service.ts:1132-1147 | Pairs the shuffled entries two by two, the odd one out with a bye. |
| SquadPick.GreedyIsCheapest | scripts/fix-manager-world-cup-squad.ts:39-61 | No selection of the same size within the club limits left by the starting counts is cheaper than what the greedy pass takes from a price-sorted list. |
| SquadPick.GreedyFailsHonestly | scripts/fix-manager-world-cup-squad.ts:39-61 | When the pass ends short of the wanted number, no selection of that size meets the club limits. |
| SquadPick.GreedyLeads | scripts/fix-manager-world-cup-squad.ts:46-58 | After every prefix of the list the greedy pass has taken at least as many players as any admissible selection. |
| SquadPick.SortPlayersSortsByPrice | scripts/fix-manager-world-cup-squad.ts:23-37 | The sorted copy is a permutation in price order, so the optimality applies to what the script passes in. |
| SquadPick.FeasibleExactlyWhen | scripts/fix-manager-world-cup-squad.ts:39-61 | A selection of a given size within the club limits exists exactly when, summed over the clubs of the list, the smaller of the room of a club and its listed players reaches that size. |
| SquadLines.SquadBuilder.SelectPlayersWithTeamLimit | scripts/fix-manager-world-cup-squad.ts:39-61 | For any count from one on, the loop succeeds exactly when the clubs of the list have that many openings; it returns a cheapest selection and counts it into the shared club counts. With count 0 it always fails. |
| SquadLines.SquadBuilder.PickSquad | scripts/fix-manager-world-cup-squad.ts:108-132 | The four calls succeed exactly when each list has enough openings after the lines before it (Completes), in particular for players from enough clubs. On success a 2/5/5/3 squad of listed players with at most three of a club, each line a cheapest one that fits the lines before it; on failure such cheapest lines after which no selection of the next line fits. |
| SquadLines.FitsExactlyWhen | scripts/fix-manager-world-cup-squad.ts:39-61 | After any earlier picks a line of the wanted size fits exactly when there are that many openings. |
| SquadLines.EnoughClubsComplete | scripts/fix-manager-world-cup-squad.ts:108-132 | Whatever they cost: listed goalkeepers of two clubs, defenders of five, midfielders of seven and forwards of seven are enough for the four calls. |
| SquadLines.EnoughClubsNeverStuck | scripts/fix-manager-world-cup-squad.ts:108-132 | Then no cheapest lines, however ties are broken, leave the next line without a selection. |
| ShortSupply.OneClubShort | scripts/fix-manager-world-cup-squad.ts:108-132 | Seven clubs of forwards cannot be six: a list with enough clubs in the other positions, forwards of six clubs and a 2/5/5/3 squad, on which the four calls fail. |
| Recompute.RunsAgreeWithRebuild | src/modules/scoring/scoring.service.ts:432-875 | After any run of scoring, deleting and recomputing from a consistent database, a full rebuild changes nothing and every player total is the sum of his stored events. |
| Scoring.RebuildFixpoint | src/modules/admin/admin.service.ts:2226-2283 | A full rebuild leaves exactly the settled databases alone. |
| Scoring.TotalsAreEventSums | src/modules/scoring/scoring.service.ts:1603-1625 | On consistent data a stored player total is the sum of all his events. |
| TeamTotals.TeamTotalsAreEventSums | src/modules/scoring/scoring.service.ts:1798-1817 | On consistent data every stored team total is the sum, over the picks of the team that are not benched, of the points of all events of the player times the multiplier, at least one. |
| TeamTotals.BenchingLowers | src/modules/scoring/scoring.service.ts:1810-1816 | Benching a starter lowers the total of his team by his live points times his multiplier, and that of no other team. |
| TeamTotals.BenchNeverMatters | src/modules/scoring/scoring.service.ts:1810-1816 | Points and multiplier of a benched pick change no total. |
| TeamTotals.LogHolds | src/modules/scoring/scoring.service.ts:1603-1625 | A recalculated log holds the sum and the number of the events of its player at its fixture. |
| TeamTotals.RefreshStores | src/modules/scoring/scoring.service.ts:1707-1772 | In any state a refresh gives the affected players and their picks the sums of their logs, the teams with a pick of one of them the sum of their starters, and changes nothing else. |
| TeamTotals.RebuildStores | src/modules/admin/admin.service.ts:2226-2283 | In any state the full rebuild does so for all players, picks and teams. |
| ScoreOps.ScoreOneKeepsConsistent | src/modules/scoring/scoring.service.ts:432-565 | Scoring one event keeps logs, player totals, live points and team totals consistent. |
| ScoreOps.DeleteOneKeepsConsistent | src/modules/scoring/scoring.service.ts:734-796 | Deleting one event of a consistent database keeps it consistent and removes that event only. |
| ScoreOps.DeleteOneTakes | src/modules/scoring/scoring.service.ts:734-796 | In any state the tables can hold, also after a failed recompute, the deletion takes exactly those other events with it whose score logs are recorded empty: one log is recalculated, but all empty logs of the fixture go, and their events by cascade. |
| ScoreOps.DeleteAllKeepsConsistent | src/modules/scoring/scoring.service.ts:798-875 | Deleting all events of a fixture keeps logs, player totals, live points and team totals consistent. |
| ScoreOps.DeleteAllEmptiesFixture | src/modules/scoring/scoring.service.ts:798-875 | In any state: no event of the fixture is left and all others stay; no log of it is left exactly when it had an event or no log before, since nothing is pruned when there is nothing to delete. |
| ScoreOps.RecomputeKeepsConsistent | src/modules/scoring/scoring.service.ts:592-697 | Recomputing a fixture keeps them consistent. |
| ScoreOps.RecomputeRepairs | src/modules/scoring/scoring.service.ts:592-697 | From any state whose logs are right outside the fixture, a recompute makes the logs right, settles every player it reaches and leaves the others settled or unsettled as they were. |
| Scoring.PruneKeepsLogsOk | src/modules/scoring/scoring.service.ts:1630-1645 | Removing logs without entries loses no points and keeps one right log per player and fixture. |
| Recompute.RecomputeTwice | src/modules/scoring/scoring.service.ts:592-697 | A second recompute with the same data changes nothing but event ids. |
| Recompute.GoodRunHeals | src/modules/scoring/scoring.service.ts:592-697 | After any number of runs in a row that failed before empty logs were removed, whatever data they saw, one good run reaches the same events (up to ids), player totals, live points and team totals as if nothing had failed, with everything consistent. |
| Recompute.HealsExactlyWhen | src/modules/scoring/scoring.service.ts:631-651 | A good run restores consistency exactly when every player with wrong totals still has a log or derived event at the fixture. |
| Recompute.FailureAfterPruningStays | src/modules/scoring/scoring.service.ts:640-651 | A run that fails after removing empty logs and before writing totals can leave a player stale that no further recompute reaches: a concrete database. |
| Recompute.DeletionAfterFailure | src/modules/scoring/scoring.service.ts:734-772 | After a recompute that failed before recalculating logs, deleting any event of the fixture removes every event of a player who had no log before. |
| Recompute.DeletionTakesAnother | src/modules/scoring/scoring.service.ts:734-772 | A concrete fixture: of the two appearances a failed recompute created, deleting one removes the other. |
| Recompute.UnreachedStaysStale | src/modules/scoring/scoring.service.ts:631-651 | Such a player stays stale through every later recompute with the same data. |
| ScoringService.ScoringStore.RecomputeFixture | src/modules/scoring/scoring.service.ts:592-697 | From any state the tables can hold, the loops, with a failure injected after any number of stored steps, end in the recomputed database or in one of the two failed states that the lemmas are about. |
| ScoringService.ScoringStore.ScoreFixtureEvent | src/modules/scoring/scoring.service.ts:432-565 | From any state the tables can hold, consistent or left by a failed recompute, the stored tables after scoring are those of the specification, and consistent ones stay so. |
| ScoringService.ScoringStore.DeleteFixtureEvent | src/modules/scoring/scoring.service.ts:734-796 | Same for deleting one event, with the cascade from removed logs to their events; an unknown id is refused and changes nothing. |
| ScoringService.ScoringStore.DeleteAllFixtureEvents | src/modules/scoring/scoring.service.ts:798-875 | Same for deleting all events of a fixture. |
| ScoringService.ScoringStore.RefreshFantasyTeamsForPlayer | src/modules/scoring/scoring.service.ts:1707-1772 | Player total, live points of his picks and totals of the teams that field him are rewritten; nothing else is. |
| ScoringService.ScoringStore.RecalculateTournamentPoints | src/modules/admin/admin.service.ts:2226-2283 | The rebuild loops compute the full rebuild. |
| MatchEvents.DerivedAreOwned | src/modules/scoring/scoring.service.ts:877-1141 | Every derived event belongs to the fixture and is of a kind that the next recompute deletes. |
| MatchEvents.DerivedAwards | src/modules/scoring/scoring.service.ts:877-1141 | Among all derived events of any fixture every player, participant or not, has one appearance exactly when the fixture started and he played a minute, one sixty-minutes award exactly when he played sixty, and one clean sheet exactly when besides he is no forward, was not sent off and no goal was conceded while he was on. |
| MatchPoints.DerivedIncidents | src/modules/scoring/scoring.service.ts:943-1003 | Among all derived events: for every kind of incident, player and minute there are as many events as incidents naming the player, and as many assists as goals and scored penalties with a provider id naming him as related. |
| MatchPoints.DerivedAreWorth | src/modules/scoring/scoring.service.ts:1186-1209 | Every derived event carries the points of its kind and of the position of its player, number by number. |
| MatchPoints.DerivedSaves | src/modules/scoring/scoring.service.ts:1097-1141 | At the end of the match the first starting goalkeeper of a side with three saves or more has one save event, a point for every three saves of his side; nobody else has one. |
| MatchPoints.AwardsByTheFeed | src/modules/scoring/scoring.service.ts:1010-1096 | The appearance, the sixty-minutes award and the clean sheet of a participant, from his minutes and the incidents alone. |
| MatchPoints.NoAwardsForOthers | src/modules/scoring/scoring.service.ts:1010-1096 | Nobody else is awarded anything. |
| Participants.MinutesConserved | src/modules/scoring/scoring.service.ts:1444-1535 | With in-order substitutions each side has as many players on the pitch as resolved starters at every minute before the elapsed one, and its minutes add up to starters x elapsed. |
| Participants.MinutesWithinMatch | src/modules/scoring/scoring.service.ts:1444-1535 | For any incident list every participant plays between 0 and the elapsed minutes. |
| Participants.WhoPlaysWhen | src/modules/scoring/scoring.service.ts:1444-1535 | For any feed: a player of a line-up starts for its side, the home one if in both, and leaves at the least minute an incident takes him off; anybody else takes part exactly when an incident sends him on, for the side of the first that does, from the least such minute. |
| Participants.ExtractParticipants | src/modules/scoring/scoring.service.ts:1444-1535 | The loop over lineups and incidents computes the specified participants. |
| Leaderboards.LeagueBoardRestrictsGlobal | src/modules/leaderboards/leaderboards.service.ts:56-204 | With one membership per user and league, a league board is the global board restricted to the members and renumbered 1..k, points included, overall and for the matchday. |
| Leaderboards.MaterializeTwice | src/modules/leaderboards/leaderboards.service.ts:76-80 | Materialising twice without a change keeps every entry and reports its own rank as previous rank. |
| Leaderboards.BoardsAreOrdered | src/modules/leaderboards/leaderboards.service.ts:318-332 | Every board lists its rows once, best first, ranked from one. |
| Leaderboards.LeagueRowsAreMembers | src/modules/leaderboards/leaderboards.service.ts:82-123 | Grouping memberships by user and rows by league lists exactly the members, in global order; archived leagues and dangling rows do not count. |
| Leaderboards.SumShowsScore | src/modules/leaderboards/leaderboards.service.ts:274-316 | The matchday points of a row are the weighted points of its starters over the score logs of the matchday. |
| TeamTotals.EntriesShowTotals | src/modules/leaderboards/leaderboards.service.ts:125-204 | Every entry of a rewritten board is that of a team, ranked by its place, with the sum of the live points of the starters times their multipliers, and the same sum over the logs of the matchday. |
| TeamTotals.EntriesShowPreviousRanks | src/modules/leaderboards/leaderboards.service.ts:334-368 | Its previous rank is the rank of the team on the stored board, and missing if it was not on it. |
| Leaderboards.LeaderboardStore.Materialize | src/modules/leaderboards/leaderboards.service.ts:42-204 | Deletes and rewrites every board of the matchday and every overall board, leaves the other boards alone, and stores on each team the total its picks add up to. |
| Leaderboards.LeaderboardStore.MatchdayPlayerPoints | src/modules/leaderboards/leaderboards.service.ts:274-293 | The map filled over the score logs holds the matchday points of every player. |
| Leaderboards.LeaderboardStore.PreviousRanks | src/modules/leaderboards/leaderboards.service.ts:334-368 | The rank map holds the rank of the last stored entry of each team in reading order. |
| StableSort.FilterSort | src/modules/leaderboards/leaderboards.service.ts:318-332 | Filtering a stably sorted list is sorting the filtered list. |
| ChipState.SyncNormalises | src/modules/fantasy/fantasy.service.ts:1294-1362 | A synchronised team has no chip and no active activation, or exactly one active activation, for its chip and not expired. |
| ChipState.SyncIsIdempotent | src/modules/fantasy/fantasy.service.ts:1294-1362 | Synchronising again during the same matchday changes nothing. |
| ChipExpiry.NothingOverAfterSync | src/modules/fantasy/fantasy.service.ts:1294-1362 | Whatever was stored: after a synchronisation no activation of any chip is active whose matchday is over. |
| ChipExpiry.ChipEndsExactlyWhen | src/modules/fantasy/fantasy.service.ts:1306-1362 | The chip goes by its newest active activation: it ends exactly when the matchday of that one lies between zero and the current one, and which activations are consumed. |
| ChipExpiry.ChipWithoutActivationEnds | src/modules/fantasy/fantasy.service.ts:1306-1340 | Without an active activation of its chip the team loses the chip and everything active is consumed. |
| ChipExpiry.EndedTeam | src/modules/fantasy/fantasy.service.ts:1340-1413 | What the end of each chip does to picks and columns. |
| ChipExpiry.NoOldChipOverRuns | src/modules/fantasy/fantasy.service.ts:1294-1362 | Over every run: after each operation that synchronises, no chip of an earlier matchday is active. |
| ChipState.RestoreUndoes | src/modules/fantasy/fantasy.service.ts:1364-1413 | restoreFreeHitSnapshot brings back the captured picks up to ids and cached position, and every captured column, and nothing else. |
| ChipState.SyncUndoesExactlyWhen | src/modules/fantasy/fantasy.service.ts:1348-1361 | When a Free Hit ends through synchronisation the picks are restored, but the row is saved from memory: it is undone exactly when its columns had not changed. |
| ChipRules.RunKeepsRules | src/modules/fantasy/fantasy.service.ts:695-838 | Over every run of activations, deactivations, captaincy changes, saves, transfers, views and captures across matchdays, at most two stored activations of Wildcard and one of each other chip exist, and every multiplier is 3 for a captain under Triple Captain, 2 for another captain and 1 for the rest, provided no Free Hit reuses a snapshot with a tripled captain. |
| ChipRules.ChipsPlayed | src/modules/fantasy/fantasy.service.ts:695-838 | Over every run a chip is played at most twice (Wildcard) or once (the others), not counting exactly those uses that a deactivation in the matchday of the activation gave back. |
| ChipRules.RunKeepsNumbers | src/modules/fantasy/fantasy.service.ts:707-745 | Over every run at most two Wildcards and one of each other chip are stored, and a captain counts three times under Triple Captain and twice otherwise, everybody else once. |
| ChipRules.EndIsRightExactlyWhen | src/modules/fantasy/fantasy.service.ts:1348-1361 | At the end of a Free Hit the multipliers are right exactly when its snapshot holds no tripled captain. |
| FreeHitRuns.FreeHitUndo | src/modules/fantasy/fantasy.service.ts:746-784 | A Free Hit that took its own snapshot: after any run, restoring it gives back the picks, budget, free transfers and formation of before the activation. |
| FreeHitEnds.FreeHitEndsExactly | src/modules/fantasy/fantasy.service.ts:798-838 | Both ways a Free Hit ends, after any run up to its end: by synchronisation in a later matchday or by deactivation, which does not synchronise first. The team is as before exactly when the columns did not change meanwhile and, if deactivated, lines, prices and points did not either (and the multipliers were right), otherwise the snapshot found holds what it had; the use comes back only by deactivation in the matchday of the activation. |
| FreeHitEnds.MoneySurvivesFreeHit | src/modules/fantasy/fantasy.service.ts:1348-1353 | For every team: a transfer made during a Free Hit is taken back at its end in a later matchday, its effect on the budget is not; undone exactly when both players cost the same. |
| FreeHitEnds.PlayerSurvivesDeactivation | src/modules/fantasy/fantasy.service.ts:798-838 | For every team: deactivating a Free Hit, in its matchday or as the first operation of a later one, keeps the player bought free of charge; in its matchday the use comes back as well. |
| FreeHitEnds.FormationSurvivesFreeHit | src/modules/fantasy/fantasy.service.ts:1348-1353 | For every team: a formation label chosen during a Free Hit survives its end. |
| FreeHitEnds.ReusedSnapshotTriples | src/modules/fantasy/fantasy.service.ts:746-752 | For every synchronised team that follows the chip rules, with both chips left and no snapshot yet: a Free Hit that finds a snapshot locked under Triple Captain ends with the captain counting three times without any chip. |
| SampleSeason.SampleIsAccepted | src/modules/fantasy/fantasy.service.ts:840-998 | Fifteen concrete lines over sixteen players pass every check. |
| SampleSeason.SampleMoneySurvives | src/modules/fantasy/fantasy.service.ts:1348-1353 | A concrete run from the first save of a new team, whose squad is lawful: after the Free Hit the old squad is back with 101.00M instead of 100.00M. |
| SampleSeason.SamplePlayerSurvives | src/modules/fantasy/fantasy.service.ts:798-838 | Concrete runs from the same team: deactivated in the next matchday the Free Hit squad stays for good, deactivated at once the use comes back and the squad stays. |
| SampleSeason.SampleTriples | src/modules/fantasy/fantasy.service.ts:746-752 | A concrete run from the same team that ends with a wrong multiplier. |
| Squads.ValidationIsExact | src/modules/fantasy/fantasy.service.ts:840-998 | The checks, in order, accept exactly the squads that are lawful (15 known, distinct players numbered 1 to 15, 2/5/5/3, at most three of a club, one captain and another vice-captain in an eleven of an allowed formation) and cost at most 100.00M. |
| LawfulSquads.AcceptedExactlyWhen | src/modules/fantasy/fantasy.service.ts:840-998 | What is accepted, in numbers of lines: fifteen different known players numbered one to fifteen, 2/5/5/3, at most three of a club, one captain and another vice-captain in the eleven, one goalkeeper, three to five defenders, two to five midfielders, one to three forwards, and prices of 100.00M at most in all. |
| LawfulSquads.FormationsAreAll | src/modules/fantasy/fantasy.service.ts:23-32 | The listed formations are exactly those of ten outfield players within these ranges. |
| SquadRefusals.RequestAnswered | src/modules/fantasy/fantasy.service.ts:840-899 | What validation answers to a request: the first rule that its lines break. |
| SquadRefusals.SquadAnswered | src/modules/fantasy/fantasy.service.ts:901-998 | And to its players, up to the eleven. |
| SquadRefusals.NeverAnswered | src/modules/fantasy/fantasy.service.ts:885-985 | The checks of the bench size, of the formation list and of the bench positions never refuse anything that comes so far. |
| SquadRuns.AcceptedSave | src/modules/fantasy/fantasy.service.ts:1114-1179 | An accepted save stores exactly the requested lines as a lawful squad; kept players keep their pick, prices and points, new ones are bought at the current price. |
| SquadRuns.RunKeepsSquads | src/modules/fantasy/fantasy.service.ts:426-838 | Over every run of all operations, with players added and repriced, the squad stays lawful and the budget non-negative. |
| Picks.TransferAcceptedExactlyWhen | src/modules/fantasy/fantasy.service.ts:1000-1071 | Out of a lawful squad a transfer is accepted exactly when the outgoing player is owned, the incoming one exists, is not owned and has the same position, his club has room (or is the same) and the money suffices. |
| Picks.TransferTheorem | src/modules/fantasy/fantasy.service.ts:1000-1071 | An accepted transfer keeps the squad lawful and its formation, the budget non-negative, and budget plus sale value constant. |
| Picks.TransferReplacesOne | src/modules/fantasy/fantasy.service.ts:617-627 | A transfer puts the incoming player, at his current price, in the place and role of the outgoing one; every other player keeps his pick. |
| TeamAnswers.TransferAnswered | src/modules/fantasy/fantasy.service.ts:1000-1071 | What a transfer out of a lawful squad is answered, in order; the checks of the resulting positions never refuse. |
| TeamAnswers.TransferStored | src/modules/fantasy/fantasy.service.ts:599-679 | What an accepted transfer stores besides the picks: one transfer and its cost, the free transfers left, and the money. |
| SquadRuns.CaptaincyAsRequested | src/modules/fantasy/fantasy.service.ts:478-525 | After an accepted change exactly the requested players are captain and vice-captain, the captain alone has the multiplier of the chip, and nothing else about a pick changes. |
| TeamAnswers.CaptaincyAnswered | src/modules/fantasy/fantasy.service.ts:478-525 | What a captaincy change is answered, in order; so it is accepted exactly when the matchday is open and both are different players of the eleven. |
| TeamAnswers.ActivationAnswered | src/modules/fantasy/fantasy.service.ts:695-745 | What an activation is answered: refused when another chip is set, or when the chip is not set and was stored twice (Wildcard) or once (the others) already. |
| TeamAnswers.ActivationStored | src/modules/fantasy/fantasy.service.ts:746-796 | What an activation stores: chip, activation, tripled captain, and a snapshot unless the matchday has one. |
| TeamAnswers.DeactivationStored | src/modules/fantasy/fantasy.service.ts:798-838 | What a deactivation stores: no chip, nothing active, the captain doubled, and one activation less exactly when the chip was active for the matchday. |
| TeamAnswers.LabelsStored | src/modules/fantasy/fantasy.service.ts:426-477 | In an open matchday name and formation of a request are stored even when its picks are refused. |
| TeamAnswers.LockedTeamStands | src/modules/fantasy/deadline-lock.service.ts:221-233 | While the matchday is locked or missing every operation of the manager is refused and changes nothing; a transfer and a view only synchronise the team. |
| TeamAnswers.RefusalStoresNothing | src/modules/fantasy/fantasy.service.ts:426-838 | A refused operation other than a save leaves the team as it was or as the synchronisation left it. |
| ChipRules.DeactivateUndoesActivate | src/modules/fantasy/fantasy.service.ts:695-838 | Deactivating a chip in the matchday of its activation gives the use back and restores the team, multipliers included; only a captured snapshot and the spent id remain. |
| Picks.SaveStoresRequest | src/modules/fantasy/fantasy.service.ts:1114-1179 | The same for any picks and lines, permutation included. |
| TransferRuns.TransfersKeepBooks | src/modules/fantasy/fantasy.service.ts:561-627 | Over runs of transfers across matchdays and prices, budget plus sale value and the formation stay the same, as long as no Free Hit ends in between. |
| TransferRuns.StepCharges | src/modules/fantasy/fantasy.service.ts:606-615 | An operation adds a transfer to a matchday only as an accepted transfer in it, and that costs four points exactly when it is not the first of the matchday and no Wildcard or Free Hit is set. |
| TransferRuns.RunKeepsHits | src/modules/fantasy/fantasy.service.ts:606-615 | From zero or one free transfer, over every run, whatever chips are played: k transfers of a matchday cost 4 * max(0, k-1) less 4 for each further transfer made under a Wildcard or Free Hit; so exactly 4 * max(0, k-1) exactly when there was none. |
| TransferRuns.FreeTransfersStay | src/modules/fantasy/fantasy.service.ts:1228-1241 | The stored number of free transfers stays in {0, 1} over every run, whatever chips are played. |
| TransferRuns.HitsLawExactlyWhen | src/modules/fantasy/fantasy.service.ts:1228-1241 | The accounting charges exactly the transfers beyond the free ones, for every number of transfers, exactly when at most one was free. |
| TransferRuns.ChargedTooEarly | src/modules/fantasy/fantasy.service.ts:1228-1241 | With two or more free transfers the last free one is charged. |
| FantasyService.FantasyTeamStore.SyncChipState | src/modules/fantasy/fantasy.service.ts:1294-1362 | The recursion with getFantasyTeamCore ends (active activations plus chip decrease) in the synchronised state. |
| FantasyService.FantasyTeamStore.GetFantasyTeamCore | src/modules/fantasy/fantasy.service.ts:156-175 | The same for the other half of the recursion. |
| FantasyService.FantasyTeamStore.RestoreFreeHitSnapshot | src/modules/fantasy/fantasy.service.ts:1364-1413 | Deleting and recreating the picks gives the restored team; a missing snapshot changes nothing. |
| FantasyService.FantasyTeamStore.ActivateChipForUser | src/modules/fantasy/fantasy.service.ts:695-796 | Stored rows and refusals are those of the specification. |
| FantasyService.FantasyTeamStore.DeactivateChipForUser | src/modules/fantasy/fantasy.service.ts:798-838 | Same for deactivation; the activation goes only if it is active for the current matchday. |
| FantasyService.FantasyTeamStore.UpdateCaptaincyForUser | src/modules/fantasy/fantasy.service.ts:478-558 | Same for captaincy. |
| FantasyService.FantasyTeamStore.CreateTransferForUser | src/modules/fantasy/fantasy.service.ts:561-679 | Same for transfers, with the cost of the transfer recorded. |
| FantasyService.FantasyTeamStore.UpdateFantasyTeamForUser | src/modules/fantasy/fantasy.service.ts:426-693 | Same for a save; labels stay saved when the picks are refused. |
| FantasyService.FantasyTeamStore.SyncFantasyTeamPicks | src/modules/fantasy/fantasy.service.ts:1114-1179 | Deleting stale picks and updating or creating one pick per line gives the saved squad. |
| DeadlineLock.SnapshotsAreWriteOnce | src/modules/fantasy/deadline-lock.service.ts:69-183 | Over every run of locks, unlocks, Free Hits, edits and joining teams there is at most one snapshot per team and matchday, stored snapshots are never changed or dropped, and a matchday has at most one active lock. |
| DeadlineLock.LockedSquadStands | src/modules/fantasy/deadline-lock.service.ts:96-141 | After a lock every team has a snapshot of the matchday, the one it had or else what it held at the lock, and keeps it through every later run. |
| DeadlineLock.RelockCreatesNothing | src/modules/admin/admin.service.ts:2325-2361 | Unlocking and locking again, without new teams, creates no snapshot. |
| DeadlineLock.LockService.LockMatchday | src/modules/fantasy/deadline-lock.service.ts:69-183 | A missing matchday, an active lock and an unknown user are answered in that order and change nothing; otherwise every team is captured and the new snapshots are counted. |
| DeadlineLock.LockService.UnlockMatchday | src/modules/admin/admin.service.ts:2325-2361 | Only the active lock of the matchday and its status change; without one the call is refused. |
| DeadlineLock.LockedStaysLocked | src/modules/fantasy/deadline-lock.service.ts:221-233 | From a lock of a matchday until it is unlocked, over every run and whatever status is set, mutations, Free Hits and further locks of it are refused and change nothing. |
| DeadlineLock.UnlockReopens | src/modules/admin/admin.service.ts:2325-2361 | A granted unlock admits mutations of the matchday again and changes the answer for no other. |
| DeadlineLock.LockService.CaptureForFreeHit | src/modules/fantasy/fantasy.service.ts:696-784 | The guard is asked first; a refusal or an unknown team changes nothing, otherwise the team is captured unless the matchday has a snapshot of it. |
| LockAnswers.LockAnswered | src/modules/fantasy/deadline-lock.service.ts:69-183 | The answers of a lock in their order, told by the lock rows, and everything a granted one stores besides snapshots. |
| LockAnswers.LockCaptures | src/modules/fantasy/deadline-lock.service.ts:96-141 | A granted lock reports how many teams had no snapshot of the matchday, keeps every row, and adds one for each of these teams, with what it holds, and no other. |
| LockAnswers.UnlockAnswered | src/modules/admin/admin.service.ts:2325-2361 | An unlock needs an active lock of the matchday and makes exactly one of them, the newest, inactive. |
| LockAnswers.MutationAnswered | src/modules/fantasy/deadline-lock.service.ts:221-233 | Mutations are admitted exactly when the matchday is known, has no active lock and is not marked as locked. |
| MatchdayFeed.DeadlineFold | src/modules/feed/feed.service.ts:1972-2009 | A matchday created by the feed has deadline and lock one hour before its first kickoff and opens seven days earlier. |
| MatchdayFeed.OrderDoesNotMatter | src/modules/feed/feed.service.ts:1516-1539 | Feeds with the same fixtures of a matchday, in any order and repetition, set the same instants. |
| MatchdayFeed.StoredOnlyMovesEarlier | src/modules/feed/feed.service.ts:2003-2006 | Instants of a stored matchday only move earlier, to what its first kickoff demands; missing ones are set. |
| MatchdayFeed.CreatedMatchday | src/modules/feed/feed.service.ts:1972-2002 | A new matchday, whole, in milliseconds: deadline and lock an hour before the first kickoff of its fixtures, opened a week earlier, with the phase of the last fixture. |
| MatchdayFeed.MovedMatchday | src/modules/feed/feed.service.ts:2003-2009 | A stored matchday, whole: each instant is the earlier one of what it was and what the first kickoff demands. |
| MatchdayFeed.OtherMatchday | src/modules/feed/feed.service.ts:1972-2009 | A matchday without a usable fixture stays as it was. |
| MatchdayFeed.ReplayRestoresLock | src/modules/feed/feed.service.ts:2003-2006 | After an unlock cleared the lock instant, the next pass of the same feed sets it to the deadline again and moves nothing else. |
| MatchdayFeed.FirstKickoffIsLeast | src/modules/feed/feed.service.ts:1516-1539 | The first kickoff is that of a usable fixture of the matchday, and none is earlier. |
| MatchdayFeed.Feed.SyncTournament | src/modules/feed/feed.service.ts:1516-1539 | The loop, skipping fixtures with unknown teams or no kickoff, computes the fold. |
| Csv.CsvRoundTrip | src/modules/player-admin/player-admin.service.ts:712-745 | Parsing the joined escaped cells gives back every non-empty list of arbitrary cells. |
| Csv.WrittenCell | src/modules/player-admin/player-admin.service.ts:712-718 | A cell is quoted, its quotes doubled, exactly when it holds a comma, a line feed or a quote. |
| Csv.ParseCsvLine | src/modules/player-admin/player-admin.service.ts:720-745 | The character loop computes the specified parse. |
| PriceText.MoneyRoundTrip | src/modules/player-admin/player-admin.service.ts:748-765 | A stored price text is read back exactly, and as zero only when it is zero. |
| PriceReading.NumberIsRead | src/modules/player-admin/player-admin.service.ts:748-765 | Whatever stands around it, the first number of a text is read as written, with a minus sign directly before it. |
| PriceReading.CentsRound | src/modules/player-admin/player-admin.service.ts:460-464 | A price is stored in hundredths, rounded by the third digit of the fraction. |
| PriceText.SplitJoined | src/modules/player-admin/player-admin.service.ts:356 | Lines joined by line feeds are split into the same lines again unless one contains a line feed or ends in a carriage return. |
| PriceSheet.UploadOfDownload | src/modules/player-admin/player-admin.service.ts:314-491 | Uploading a downloaded sheet changes and misses nothing and deletes exactly the players whose price is zero, for all names and teams without a line feed. |
| PriceUpload.UploadOfEdits | src/modules/player-admin/player-admin.service.ts:314-491 | Downloading the players, editing prices and positions and uploading the sheet leaves every player as his row says: one whose old or new price is zero is deleted as he is, every other one has the new position, and the new price unless it is negative. |
| PriceUpload.AfterUpload | src/modules/player-admin/player-admin.service.ts:427-472 | For any list of updates, what becomes of every player: missing, deleted as he was, or with the last price and position given to him and listed as changed if that changed him. |
| PriceSheet.NothingDeletedExactlyWhen | src/modules/player-admin/player-admin.service.ts:389-438 | So nothing is deleted exactly when every price differs from zero. |
| PriceSheet.ColumnsFollowNames | src/modules/player-admin/player-admin.service.ts:362-371 | For any header line, headers that agree in their letters up to case name the same columns. |
| PriceSheet.ColumnsByName | src/modules/player-admin/player-admin.service.ts:362-371 | Headers that normalise like those of the download name its columns: player id, new price before current price, position, and both prices for deletions. |
| PriceColumns.ColumnsMean | src/modules/player-admin/player-admin.service.ts:362-371 | For any header line: each column is the first of its name, the price is set from the new price, else the price, else the current price, and all three delete. |
| PriceColumns.RefusedExactlyWhen | src/modules/player-admin/player-admin.service.ts:355-425 | The four refusals of an upload, in their order, and nothing else is refused. |
| PriceSheet.UploadPrices | src/modules/player-admin/player-admin.service.ts:355-491 | Refusals and the classification loop (changed, deleted once, skipped, missing) are those of the specification. |
| PriceSheet.Classify | src/modules/player-admin/player-admin.service.ts:427-472 | The classification loop computes the fold over the updates. |

## Left out

- FantasyService.FantasyTeamStore.SyncChipState: a save writes the columns of the row only; what TypeORM does to
  one-to-many relations loaded with the row is not modelled.
- FreeHitRuns.FreeHitUndo: is about `restoreFreeHitSnapshot`, because the synchronisation around it overwrites the row.
- ChipRules.RunKeepsRules: `totalPoints` and `updatedAt` of a team are not among the modelled columns.
- SquadRuns.RunKeepsSquads: players removed from the catalogue while on a squad; every owned player stays known.
- Picks.TransferTheorem: picks whose player row is gone are not deleted before the checks (the query loads deleted
  players, so there are none).
- HeadToHead.Ledger.ResolveMatchday: memberships that were deleted (null sides that are not Average) and the loading of
  scores; scores are given.
- HeadToHeadTable.RankStandings: which rows are loaded and in which order is given.
- Cup.KnockoutTheorem: finalises each consecutive matchday once; finalising one twice creates another next round. Each
  shuffle is an arbitrary permutation.
- Cup.KnockoutCup.FinalizeMatchday: round names, and unique constraints of the database.
- Scoring.TotalsAreEventSums: fixes squads, because a transfer keeps the old live points on the pick; `bonusPoints`,
  minutes and event summaries are not modelled beyond their length.
- MatchEvents.DerivedAwards: the rule table is fixed and complete; points that rules override are constants.
- Participants.MinutesConserved: matching provider names to players is taken as done; a participant is a player or
  nothing.
- ScoringService.ScoringStore.RecomputeFixture: scoring runs, notifications and realtime events; failures in the middle
  of the other operations.
- Leaderboards.LeaderboardStore.Materialize: boards of other tournaments, and the head-to-head resolution that follows.
- Leaderboards.LeagueBoardRestrictsGlobal: needs one membership per user and league.
- DeadlineLock.LockService.LockMatchday: tournament status, lock reasons and times, notifications.
- MatchdayFeed.OrderDoesNotMatter: not for the phase, which the last fixture decides.
- PriceSheet.UploadOfDownload: names and teams with a line feed, since lines are split before quotes are read; case
  mapping outside ASCII; `parseFloat` and `toFixed` are exact decimals.
- PriceSheet.UploadPrices: price history and the cascade of deletions.
- Manual edits of matchdays, fixtures and tournament fields, manual score corrections, seed data, provider calls,
  authentication, audit logs and views: unconstrained writes or plumbing.
- `ensureRequiredFantasyRules`: a fixed rule table stands for it.
- Floating point: prices are integers of hundredths.
- Concurrency: each operation runs to its end before the next, except for the injected failures of a recompute.
