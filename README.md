# League — a Dafny model of the fixture, result and statistics logic

This project models the arithmetic core of a small football league application. A league is
a set of teams with players. Matches are scheduled on matchdays and grouped into rounds. The
admin enters results and per-player match statistics. The application then derives a league
table, player rankings and top-performer lists.

The server's database is an in-memory object, `Store.Db`. It has one sequence per table
(teams, players, matches, statistics rows) and a counter that stands for generated ids. Every
controller operation is a method on it. Each method states the new contents of every table,
including the error paths, where nothing changes. The client's pure helpers are functions.
These cover score entry, matchday and round/date grouping, the ranking comparators, the stats
form and image URLs. Dates are whole day numbers: day 0 is 1970-01-01, a Thursday.

Modules, one per source file, plus four shared ones:

- `Wrappers`: `Option` and `Result`.
- `Ordering`: lexicographic order on integer vectors. Every comparator of the application is
  shown to be this order on a key vector. `SortBy` is a stable insertion sort, proved to return
  a sorted permutation. `Dedup` is `[...new Set(s)]`.
- `Decimal`: `toString` and `parseInt` of naturals, and zero-padded fixed-width numbers.
- `Store`: the entities and the `Db` class.
- `MatchController`: the three-team Friday/Saturday scheduler, `getNextFriday`,
  `updateResult` and `clearLeague`.
- `LegacyMatchController`: the compiled four-team double round robin and its `updateResult`.
- `LeagueController`: the standings fold and the points/goal-difference/goals ranking.
- `StatsController`: the rating formula, totals, batch validation and the upsert, the league
  ranking and the top-five lists.
- `PlayerController` and `TeamController`: the registries, with jersey-number uniqueness and
  the match cascade on team deletion.
- `PlayerStatsView`, `AdminDashboard`, `MatchList`, `MatchStatsModal` and `ImageUrl`: the
  client helpers.

## Model

| member | source | states |
|---|---|---|
| Ordering.SortBy | server/src/controllers/leagueController.ts:51-55 | sorting by a key comparator returns a permutation of its input, in non-decreasing key order |
| Ordering.SortByMembers | server/src/controllers/leagueController.ts:51-55 | a sorted list holds exactly the elements of its input |
| Ordering.LexLeAppend | frontend/src/pages/MatchList.tsx:225 | comparing vectors with equal-length prefixes is decided by the prefixes first, then by the rest |
| Ordering.Dedup | frontend/src/pages/AdminDashboard.tsx:204 | `[...new Set(s)]` has no repetitions and holds exactly the elements of `s` |
| Ordering.CodesInjective | frontend/src/pages/MatchList.tsx:225 | two strings with the same code units are the same string, so string sort compares keys faithfully |
| Decimal.ParseShow | frontend/src/pages/AdminDashboard.tsx:205 | `parseInt` of a number's decimal text gives that number back |
| Decimal.ShowNatInjective | frontend/src/pages/AdminDashboard.tsx:199 | different matchday numbers have different texts, so filtering by text is filtering by number |
| Decimal.PaddedOrder | frontend/src/pages/MatchList.tsx:68 | zero-padded numbers of one width compare as strings exactly as the numbers compare, and are equal only for equal numbers |
| Store.IndexOfId | server/src/controllers/playerController.ts:73 | a lookup by id (of a team, player or match) finds a row with that id, or shows that no row has it |
| Store.Materialize | server/src/controllers/matchController.ts:121 | `createMany` stores every fixture, in order, with consecutive fresh ids and no scores |
| Store.RemoveAt | server/src/controllers/playerController.ts:175-177 | deleting one row keeps all the other rows, in order |
| Store.PermutedTeamIdsDistinct | server/src/controllers/matchController.ts:27 | reading the teams back in name order keeps their ids distinct |
| Store.Db.ReplaceMatches | server/src/controllers/matchController.ts:121 | after `deleteMany` and `createMany`, the match table is exactly the new fixtures, and no other table changes |
| Store.Db.ClearMatches | server/src/controllers/matchController.ts:37 | the match table becomes empty and no other table changes |
| MatchController.NextFriday | server/src/controllers/matchController.ts:7-14 | the result is a Friday 1 to 7 days after the input, with no Friday in between, so a Friday gives the following Friday |
| MatchController.BuildFixtures | server/src/controllers/matchController.ts:46-118 | the loop over `weeks` weeks produces the season: 6 fixtures per week, none for zero or negative weeks |
| MatchController.FixtureShape | server/src/controllers/matchController.ts:43-117 | fixture i is on matchday i/3+1, in round i/6+1, SCHEDULED, and dated start + 7 days per week, plus 1 on Saturday |
| MatchController.SaturdaySwapsFriday | server/src/controllers/matchController.ts:82-111 | each Saturday fixture is the Friday fixture with home and away swapped, one day and one matchday later, in the same round |
| MatchController.MatchdayPairsEachCoupleOnce | server/src/controllers/matchController.ts:52-111 | with three distinct teams, every matchday pairs each of the three couples exactly once, and nobody plays itself |
| MatchController.MatchdayMeetings | server/src/controllers/matchController.ts:52-111 | the three fixtures of each matchday meet the couples (a, b), (a, c) and (b, c), in that order |
| MatchController.WeekIsBalanced | server/src/controllers/matchController.ts:16-111 | within each week every team plays twice at home and twice away |
| MatchController.WeekSlice | server/src/controllers/matchController.ts:52-111 | week k of the generated season is exactly that week's six fixtures, Friday's then Saturday's |
| MatchController.WeekFixturesBalanced | server/src/controllers/matchController.ts:52-111 | in one week's six fixtures each team is at home twice and away twice |
| MatchController.DatesNondecreasing | server/src/controllers/matchController.ts:46-118 | fixture dates never decrease along the schedule |
| MatchController.WeeksBound | server/src/controllers/matchController.ts:24-45 | an absent `weeks` means 4, a `null` one runs no week (it compares as 0), and a number is the bound itself |
| MatchController.GenerateSchedule | server/src/controllers/matchController.ts:22-121 | without exactly three teams, the request is refused before any match is deleted. With a start text that is no date and at least one week to build, the matches are deleted and the request fails. Otherwise the matches become the season for the teams in name order, from `startDate` (or the next Friday when it is falsy), over the weeks the loop runs |
| MatchController.ParseScore | server/src/controllers/matchController.ts:175-176 | only `null` gives a null score; an absent or unreadable field is parsed to NaN, and a number is kept |
| MatchController.ResultDataOf | server/src/controllers/matchController.ts:174-178 | the status is PLAYED exactly when neither field is `null`, which is exactly when both parsed scores are present, NaN included |
| MatchController.Stored | server/src/controllers/matchController.ts:175-176 | a parsed score other than NaN is stored as that number, and null as null |
| MatchController.RecordResult | server/src/controllers/matchController.ts:172-178 | the stored match is PLAYED exactly when both scores are stored; the scores are the parsed ones (null stays null), and nothing else changes |
| MatchController.UpdateResult | server/src/controllers/matchController.ts:167-193 | a NaN score is an error, and so is an unknown id; both change nothing. Otherwise only that match is rewritten with the computed data |
| MatchController.MissingScoreCountsAsPresent | server/src/controllers/matchController.ts:175-177 | a body without `awayScore` gives a PLAYED match whose away score is NaN |
| MatchController.IntendedResultData | server/src/controllers/matchController.ts:175-177 | with `!= null`, an absent score counts as null, so PLAYED means that both scores were sent |
| MatchController.IntendedOneScoreStaysScheduled | server/src/controllers/matchController.ts:175-177 | under the intended test, one sent score leaves the match SCHEDULED with that score stored; two sent scores store both and mark it PLAYED |
| MatchController.ClearLeague | server/src/controllers/matchController.ts:198-209 | all matches are removed and nothing else changes |
| LegacyMatchController.RoundPairings | server/dist/controllers/matchController.js:35-43 | twelve pairings; pairing i+6 is pairing i with home and away swapped |
| LegacyMatchController.BuildFixtures | server/dist/controllers/matchController.js:72-83 | every prepared create keeps its matchday, is in round 1 and is dated base + matchday |
| LegacyMatchController.ScheduleShape | server/dist/controllers/matchController.js:47-78 | two fixtures on each matchday 1..6, all in round 1 and SCHEDULED; one matchday shares a date, and later matchdays have later dates |
| LegacyMatchController.FixturesDistinct | server/dist/controllers/matchController.js:35-43 | with four distinct teams, no team plays itself, and no two fixtures have the same home and away team |
| LegacyMatchController.OrderedPairOnce | server/dist/controllers/matchController.js:35-43 | every ordered pair of distinct teams meets in exactly one fixture, so each couple meets twice, once on each ground |
| LegacyMatchController.PairIndex | server/dist/controllers/matchController.js:35-43 | locates the pairing of any ordered couple of distinct teams in the table |
| LegacyMatchController.EachTeamOncePerMatchday | server/dist/controllers/matchController.js:50-66 | on each matchday the two fixtures involve all four teams, each exactly once |
| LegacyMatchController.GenerateSchedule | server/dist/controllers/matchController.js:18-91 | without exactly four teams, the request is refused before anything is deleted; otherwise the matches become the twelve fixtures dated from tomorrow |
| LegacyMatchController.RecordResult | server/dist/controllers/matchController.js:110-116 | this version always marks the match PLAYED and stores both scores |
| LegacyMatchController.UpdateResult | server/dist/controllers/matchController.js:106-124 | an unknown id is an error and changes nothing; otherwise only that match is rewritten |
| LeagueController.HomeMatches | server/src/controllers/leagueController.ts:8 | exactly the team's PLAYED home matches |
| LeagueController.AwayMatches | server/src/controllers/leagueController.ts:9 | exactly the team's PLAYED away matches |
| LeagueController.AwayView | server/src/controllers/leagueController.ts:29-38 | an away match is counted with goals for and against swapped relative to the home side |
| LeagueController.TallyHome | server/src/controllers/leagueController.ts:17-26 | the home loop's counters equal the summary of the home matches' outcomes added to the counters it started from |
| LeagueController.TallyAway | server/src/controllers/leagueController.ts:29-38 | the same for the away loop, with the roles of the two scores reversed |
| LeagueController.OutcomesPartition | server/src/controllers/leagueController.ts:19-36 | won, drawn and lost add up to the matches that have both scores, which is at most the matches counted |
| LeagueController.StandingAccountsForEveryMatch | server/src/controllers/leagueController.ts:14-38 | when every PLAYED match carries scores, won + drawn + lost == played |
| LeagueController.TeamRow | server/src/controllers/leagueController.ts:13-47 | the row is the team's standing: played counts its PLAYED home and away matches, pts = 3·won + drawn, gd = gf − ga |
| LeagueController.CompareIsKeyOrder | server/src/controllers/leagueController.ts:51-55 | the comparator puts a row first exactly when its (−pts, −gd, −gf) key is smaller, and ties exactly on equal keys |
| LeagueController.KeyOrderMeansRanking | server/src/controllers/leagueController.ts:51-55 | key order means more points, else a better goal difference, else at least as many goals |
| LeagueController.GetLeagueTable | server/src/controllers/leagueController.ts:4-57 | the table holds one row per team (a permutation of the standings), ranked by points, then goal difference, then goals for |
| StatsController.ReduceAddsTotals | server/src/controllers/statsController.ts:174-183 | the `reduce` adds the sums of goals, assists and cards, the row count and the award count to its seed |
| StatsController.TotalsPermutation | server/src/controllers/statsController.ts:158-183 | totals do not depend on the order in which rows are read |
| StatsController.RatingOfPlus | server/src/controllers/statsController.ts:8-20 | the rating is additive over totals |
| StatsController.RatingIsSumOfMatchRatings | server/src/controllers/statsController.ts:8-20 | a player's rating is the sum over matches of 3·goals + 2·assists − yellow cards − 3·red cards |
| StatsController.RowsOf | server/src/controllers/statsController.ts:158-159 | exactly the rows of that player |
| StatsController.ReduceCountsAgrees | server/src/controllers/statsController.ts:173-183 | the five-field reduce of `getPlayerStats` gives the same counts as the six-field reduce of the rankings |
| StatsController.GetPlayerStats | server/src/controllers/statsController.ts:154-197 | the report lists exactly the player's rows; the five totals (goals, assists, cards, matches, no awards) are their sums, matchesPlayed is their count, and the rating is that of the totals and the sum of the per-match ratings |
| StatsController.ToRow | server/src/controllers/statsController.ts:77-94 | missing or zero counts are stored as 0, missing or zero minutes as null, and the award flag is true only when sent as true |
| StatsController.ResubmitKeepsRow | server/src/controllers/statsController.ts:77-94 | sending a stored row back unchanged stores the same row |
| StatsController.TeamPlayerIds | server/src/controllers/statsController.ts:52-55 | exactly the ids of the team's players |
| StatsController.FirstForeignPlayer | server/src/controllers/statsController.ts:58-65 | reports no player exactly when every entry belongs to one of the two teams; otherwise reports the first entry that does not |
| StatsController.StatIndex | server/src/controllers/statsController.ts:71-76 | finds the first row with the (player, match) key, or reports that none has it |
| StatsController.Upsert | server/src/controllers/statsController.ts:68-104 | afterwards the key is present, only that key's row may have changed, the table grows only for a new key, and unique keys stay unique |
| StatsController.UpsertIdempotent | server/src/controllers/statsController.ts:68-104 | recording the same row twice equals recording it once |
| StatsController.UpsertAll | server/src/controllers/statsController.ts:68-104 | every key of the batch is present afterwards, no key is lost, no row comes from elsewhere, and keys stay unique |
| StatsController.UpsertAllLastWins | server/src/controllers/statsController.ts:68-104 | the last entry for a key in a batch is the row stored |
| StatsController.KeptAfterUpserts | server/src/controllers/statsController.ts:68-104 | a row whose key the batch does not touch is kept |
| StatsController.RecordMatchStats | server/src/controllers/statsController.ts:25-117 | a non-array body, an unknown match or any player outside both teams rejects the whole batch with nothing written; otherwise every entry is upserted |
| StatsController.LineOf | server/src/controllers/statsController.ts:212-241 | a player's line carries the totals of exactly their rows, and the rating of those totals |
| StatsController.Lines | server/src/controllers/statsController.ts:212 | one line per player, in the order the players are read |
| StatsController.LeagueKeyOrder | server/src/controllers/statsController.ts:244-249 | the ranking key orders by awards, goals and assists descending, then red cards ascending |
| StatsController.GetLeagueStats | server/src/controllers/statsController.ts:202-257 | one ranked line per player (a permutation of the lines), ranks 1..n by position, in ranking order |
| StatsController.Ranked | server/src/controllers/statsController.ts:251-254 | ranks are 1, 2, ... by position and dropping them gives back the lines in the same order |
| StatsController.TopFive | server/src/controllers/statsController.ts:304-318 | at most five elements, sorted, drawn from the input |
| StatsController.TopFiveIsBest | server/src/controllers/statsController.ts:304-318 | nothing left out of a top-five list ranks above anything in it |
| StatsController.TopFiveAllBest | server/src/controllers/statsController.ts:302-318 | every element left out of a top-five list ranks no higher than every element in it |
| StatsController.BestKeyOrder | server/src/controllers/statsController.ts:310-314 | the best-players comparator is the order by awards, then goals, then assists, all descending |
| StatsController.SingleKeyOrder | server/src/controllers/statsController.ts:303-308 | a descending one-field comparator orders by that field, larger first |
| StatsController.TopFiveIsTop | server/src/controllers/statsController.ts:302-318 | sorting by a key that encodes a ranking and keeping five gives min(n, 5) lines, best first, with nobody left out ranking above anyone kept |
| StatsController.GetTopPerformers | server/src/controllers/statsController.ts:270-318 | each list has min(players, 5) lines drawn from all players, best first: scorers by goals, assisters by assists, best players by awards, then goals, then assists; nobody left out of a list ranks above anyone in it |
| PlayerController.JerseyHolder | server/src/controllers/playerController.ts:131-137 | finds a player of the team wearing the number, other than the excluded one, or reports that none does |
| PlayerController.OwnNumberIsFree | server/src/controllers/playerController.ts:131-137 | excluding the player itself, its own number is never taken |
| PlayerController.AddKeepsJerseysUnique | server/src/controllers/playerController.ts:80-103 | adding a player with a free number keeps jersey numbers unique within each team |
| PlayerController.ReplaceKeepsJerseysUnique | server/src/controllers/playerController.ts:124-152 | changing a player to a number no teammate wears keeps numbers unique |
| PlayerController.Edited | server/src/controllers/playerController.ts:147-152 | an empty name or missing number leaves that field as it was; id and team never change |
| PlayerController.CreatePlayer | server/src/controllers/playerController.ts:61-113 | a missing field, an unknown team or a taken number is refused with nothing added; otherwise exactly one player is added, with a fresh id |
| PlayerController.UpdatePlayer | server/src/controllers/playerController.ts:118-166 | an unknown id is "not found"; a number held by a teammate is refused; otherwise only that player is edited, and jersey numbers stay unique |
| PlayerController.RemoveKeepsPlayersValid | server/src/controllers/playerController.ts:175-177 | removing a player keeps ids and jersey numbers unique, and drops only players with that id |
| PlayerController.DeletePlayer | server/src/controllers/playerController.ts:171-187 | only the player with that id is removed; an unknown id is an error and changes nothing |
| TeamController.LogoOrNull | server/src/controllers/teamController.ts:38 | an absent or empty logo is stored as null, any other as given |
| TeamController.CreateTeam | server/src/controllers/teamController.ts:26-46 | an empty name is refused with nothing created; otherwise exactly one team is added, with a fresh id |
| TeamController.Renamed | server/src/controllers/teamController.ts:53-56 | only the fields sent are changed, and the id is kept |
| TeamController.UpdateTeam | server/src/controllers/teamController.ts:48-62 | only the team with that id changes; an unknown id is an error and changes nothing |
| TeamController.WithoutTeam | server/src/controllers/teamController.ts:69-76 | keeps exactly the matches where the team is neither home nor away |
| TeamController.WithoutTeamKeepsIds | server/src/controllers/teamController.ts:69-76 | the cascade keeps match ids unique |
| TeamController.DeleteTeam | server/src/controllers/teamController.ts:64-86 | the team's matches are removed and all others kept, even when the team is unknown; then the team is removed if it exists |
| TeamController.DeleteAllTeams | server/src/controllers/teamController.ts:87-102 | matches and teams are both empty afterwards, and nothing else changes |
| PlayerStatsView.FilterByTeam | frontend/src/pages/PlayerStats.tsx:16 | 'all' keeps every line; otherwise exactly the lines of that team |
| PlayerStatsView.CompareIsModeKeyOrder | frontend/src/pages/PlayerStats.tsx:17-35 | in each of the three modes, the comparator is lexicographic order on that mode's key: awards, goals, assists descending, red cards ascending; goals, awards, assists descending; assists, goals, awards descending |
| PlayerStatsView.Displayed | frontend/src/pages/PlayerStats.tsx:16-35 | the displayed rows are a permutation of the filtered lines in comparator order, ranked 1..n by position |
| AdminDashboard.HandleScoreChange | frontend/src/pages/AdminDashboard.tsx:159-165 | the typed side of that match becomes the value (an empty field counts as 0); the other side and every other entry stay as they were |
| AdminDashboard.SaveScore | frontend/src/pages/AdminDashboard.tsx:167-175 | with an entry, its scores are sent and only that entry is dropped; without one, nothing is sent and nothing changes |
| AdminDashboard.Sent | frontend/src/pages/AdminDashboard.tsx:118 | an untyped side is dropped from the JSON body and arrives absent; a typed one arrives as its number |
| AdminDashboard.EnteredScoresAreSavedAndPlayed | frontend/src/pages/AdminDashboard.tsx:159-175 | typing both scores and saving sends those scores, leaves no pending entry, and the server then stores both and marks the match PLAYED |
| AdminDashboard.HomeScoreAloneIsPlayedWithNaN | frontend/src/pages/AdminDashboard.tsx:159-175 | typing only the home score and saving sends no away score, and the server computes a PLAYED match with a NaN away score that it cannot store |
| AdminDashboard.FilterSelectsMatchday | frontend/src/pages/AdminDashboard.tsx:199 | a matchday filter keeps exactly the matches of that matchday |
| AdminDashboard.OnMatchday | frontend/src/pages/AdminDashboard.tsx:198-202 | exactly the matches of that matchday that pass the filter |
| AdminDashboard.StepKeepsGrouped | frontend/src/pages/AdminDashboard.tsx:198-202 | one step of the reduce keeps every matchday bucket equal to the kept matches seen so far on that matchday |
| AdminDashboard.GroupByMatchday | frontend/src/pages/AdminDashboard.tsx:198-202 | a matchday has a bucket exactly when a kept match is on it, and the bucket holds those matches in order |
| AdminDashboard.MatchdayTexts | frontend/src/pages/AdminDashboard.tsx:204 | one text per match, that match's matchday |
| AdminDashboard.ShownTextsIncrease | frontend/src/pages/AdminDashboard.tsx:205 | a smaller matchday parses to a smaller number |
| AdminDashboard.SortedTextsIncrease | frontend/src/pages/AdminDashboard.tsx:204-205 | distinct matchday texts in sorted order have strictly increasing numeric values |
| AdminDashboard.TextsNameMatchdays | frontend/src/pages/AdminDashboard.tsx:204 | a list with the same members as the matchday texts names exactly the matchdays present |
| AdminDashboard.Matchdays | frontend/src/pages/AdminDashboard.tsx:204-205 | each matchday appears once and no other text does, in strictly increasing numeric order |
| AdminDashboard.WeeksEntered | frontend/src/pages/AdminDashboard.tsx:263 | the weeks field is never 0: a non-zero entry is kept, and an empty, unreadable or zero entry means exactly one week |
| AdminDashboard.GenerateClick | frontend/src/pages/AdminDashboard.tsx:268-278 | generation is requested exactly when there are three teams and either no matches or a confirmation; it is refused exactly when there are not three teams |
| MatchList.Without | frontend/src/pages/MatchList.tsx:54 | removes exactly that day, keeps distinct lists distinct, and changes nothing when the day is absent |
| MatchList.WithoutAppend | frontend/src/pages/MatchList.tsx:54 | filtering distributes over concatenation |
| MatchList.ToggleOffDay | frontend/src/pages/MatchList.tsx:53-55 | the day is present afterwards exactly when it was absent; every other day is unchanged |
| MatchList.ToggleTwiceRestores | frontend/src/pages/MatchList.tsx:53-55 | toggling an absent day twice restores the list |
| MatchList.DateKey | frontend/src/pages/MatchList.tsx:68 | a valid date's `yyyy-MM-dd` key has 10 characters |
| MatchList.DateKeyOrder | frontend/src/pages/MatchList.tsx:68 | for valid dates, string order of the keys is (year, month, day) order |
| MatchList.DateKeyInjective | frontend/src/pages/MatchList.tsx:68 | different valid dates have different keys |
| MatchList.Bucket | frontend/src/pages/MatchList.tsx:65-71 | exactly the matches of that round and date key |
| MatchList.BucketCount | frontend/src/pages/MatchList.tsx:65-71 | each match occurs in the bucket of its own round and date as often as in the input, and in no other, so no match is lost or duplicated |
| MatchList.PushKeepsGrouped | frontend/src/pages/MatchList.tsx:66-71 | one `forEach` step keeps every bucket equal to the matches seen so far for that round and date |
| MatchList.PushEntry | frontend/src/pages/MatchList.tsx:66-71 | a push creates the round's and the day's bucket when missing, appends the match to its own bucket only, and leaves every other bucket as it was |
| MatchList.BucketLast | frontend/src/pages/MatchList.tsx:66-71 | the bucket of a list is the bucket of all but its last match, with that match appended exactly when its round and day are the bucket's |
| MatchList.RoundsMapGrouped | frontend/src/pages/MatchList.tsx:64-71 | pushing all matches in order yields a grouping: a bucket per round of the matches, holding per day key exactly that day's matches |
| MatchList.GroupByRoundAndDate | frontend/src/pages/MatchList.tsx:64-71 | the loop builds the map that pushing every match in list order builds, and in it a round has a bucket exactly when it has a match, each day bucket holding exactly that round's matches of that day in order |
| MatchList.GroupedMeans | frontend/src/pages/MatchList.tsx:64-71 | the grouping has a round exactly when a match has it, and each match's date key under its round |
| MatchList.SortedRounds | frontend/src/pages/MatchList.tsx:73 | the rounds of the matches, each once, strictly ascending |
| MatchList.KeysOfRound | frontend/src/pages/MatchList.tsx:225 | exactly the date keys that have matches in the round |
| MatchList.EntryOrderIsKeyOrder | frontend/src/pages/MatchList.tsx:225 | sorting entries by their string form orders them by date key |
| MatchList.DayEntries | frontend/src/pages/MatchList.tsx:225 | one entry per date of the round, with that date's matches |
| MatchList.RoundDays | frontend/src/pages/MatchList.tsx:225 | the sorted entries hold the same dates and buckets |
| MatchList.PermutedEntries | frontend/src/pages/MatchList.tsx:225 | reordering the entries of a round keeps the same set of date keys, each with its own bucket |
| MatchList.RoundDaysAscending | frontend/src/pages/MatchList.tsx:225 | the date keys of a round appear in strictly increasing string order |
| MatchList.RoundDaysChronological | frontend/src/pages/MatchList.tsx:225 | any match of an earlier-listed day is on an earlier calendar date |
| MatchStatsModal.Find | frontend/src/components/MatchStatsModal.tsx:42 | the first stored row of the player, or none when there is none |
| MatchStatsModal.OrDefault | frontend/src/components/MatchStatsModal.tsx:46-50 | the or-default of JavaScript: a missing or zero value gives the default |
| MatchStatsModal.InitEntry | frontend/src/components/MatchStatsModal.tsx:40-52 | every field is set; counts come from the stored row or are 0; minutes come from the row, or are 90 when missing or 0 |
| MatchStatsModal.InitStats | frontend/src/components/MatchStatsModal.tsx:37-57 | one draft for every player of either team and no one else, each as `initPlayer` builds it |
| MatchStatsModal.UpdateStat | frontend/src/components/MatchStatsModal.tsx:74-82 | the field becomes max(0, value); every other field and every other player are unchanged; no field ever becomes negative |
| MatchStatsModal.CardClick | frontend/src/components/MatchStatsModal.tsx:202 | a card count of 0 becomes 1, anything else becomes 0 |
| MatchStatsModal.CardTwiceRestores | frontend/src/components/MatchStatsModal.tsx:209 | clicking a card button twice on a 0/1 count gives back the same form |
| MatchStatsModal.SaveThenReopen | frontend/src/components/MatchStatsModal.tsx:243 | saving a draft and reopening the form shows the same draft, except that 0 minutes come back as 90 |
| ImageUrl.ApiBase | frontend/src/lib/api.ts:4 | an unset or empty `VITE_API_URL` falls back to the local server |
| ImageUrl.IndexOf | frontend/src/lib/api.ts:14 | the first position where the pattern occurs, or none when it does not occur |
| ImageUrl.ReplaceFirst | frontend/src/lib/api.ts:14 | `replace` with a string pattern replaces only the first occurrence |
| ImageUrl.GetImageUrl | frontend/src/lib/api.ts:11-16 | null or empty gives null; an `http…` URL is returned unchanged; otherwise the base minus its first `/api`, then the path; a result always ends with the input |
| ImageUrl.DefaultBaseApiAtEnd | frontend/src/lib/api.ts:4 | the default base `http://localhost:5000/api` contains `/api` only at its end |
| ImageUrl.DefaultBaseImage | frontend/src/lib/api.ts:14-15 | with the default base, a relative path is served from `http://localhost:5000` |
| ImageUrl.FirstApiIsInTheHost | frontend/src/lib/api.ts:14 | a base whose host starts with `api` loses the slash before the host instead of its trailing `/api` |
| ImageUrl.Origin | frontend/src/lib/api.ts:14 | drops a trailing `/api` and nothing else |
| ImageUrl.ImageUrlFromOrigin | frontend/src/lib/api.ts:11-16 | the same null and absolute-URL cases as the source, and a result always ends with the input |
| ImageUrl.OriginServesPaths | frontend/src/lib/api.ts:14-15 | for any origin, the base `origin/api` serves relative paths at `origin` + path |
| ImageUrl.AgreesWhenOnlyTrailing | frontend/src/lib/api.ts:14 | where the base's only `/api` is at its end, the source's rule and the origin rule agree |

## Left out

- Database I/O: the ORM, `createMany`/`deleteMany`, transactions and the `Promise.all` of upserts are sequential updates of in-memory tables. Concurrent upserts are not modelled; a batch is applied in order.
- Schema cascades that the controllers do not trigger themselves, such as players' statistics rows when a player is deleted, are not visible in the code. Those tables stay unchanged.
- Ids are natural numbers drawn from a counter, not generated strings; only their equality matters.
- Read-only queries whose only logic is a database `orderBy`: `getMatches`, `getMatchStats`, the team and player listings, and the date-descending order of the rows returned by `getPlayerStats`. `StatsController.GetPlayerStats` states which rows are returned, not their order.
- The average goals and assists per match in the league statistics are floating-point `toFixed` strings and are not modelled.
- Authentication, the upload middleware, request logging, server and router wiring, and UI rendering (`alert`, `confirm`, query hooks, display formatting) are not part of this model.
- The wall clock is a parameter: `today` in both schedulers. Time of day (`setHours`) and time zones are not modelled; dates are whole days.
- The calendar conversion behind `format(parseISO(date), 'yyyy-MM-dd')` is a parameter `cal` from day numbers to (year, month, day). MatchList.DateKeyOrder and MatchList.RoundDaysChronological cover valid dates with a four-digit year only.
- `parseInt` of request fields and input boxes is modelled only as far as it decides a branch. Integers arrive as integers. Non-integer numbers, and a `weeks` sent as text, are not modelled. What `None` stands for depends on the field:
  - `updateResult` scores use `MatchController.ScoreField`, which separates absent, `null`, readable and unreadable. A score of 0 is a present score.
  - `generateSchedule` uses `MatchController.StartField`. In it, `NoStart` is any falsy `startDate`: absent, `null`, empty or 0. `WeeksField` separates absent (4 weeks), `null` (no week) and a number.
  - For `createTeam` and the player and statistics request fields, `None` or `""` is any falsy value: absent, `null`, empty, 0 or NaN.
  - For `updateTeam`, `None` means an absent field only, which is left alone. A sent `""` name is written, and a `null` logo is `Some(None)`, which clears it. A `null` name is not modelled.
  - In the client drafts, `None` is a field never typed into (`undefined`).
- MatchController.UpdateResult: what the database does with a NaN score is not part of this model. The update is modelled as refused, with nothing stored. `ResultDataOf` states the data the source computes for it: PLAYED, with a NaN score.
- MatchController.GenerateSchedule: an Invalid Date start is modelled as refused by `createMany` when at least one week is built. The database's own message is not modelled.
- Every `Array.prototype.sort` is modelled as the pure function `Ordering.SortBy`. The in-place update of the array is not modelled, and stability is not proved.
- The database's `orderBy: { name: 'asc' }` is modelled as the order of the names' character codes. The database's collation is not modelled. MatchController.GenerateSchedule: for teams with equal names, the ensures fixes which team plays as A, B and C to the order `SortBy` leaves them in; the database may order them differently.
- LegacyMatchController.GenerateSchedule: the teams are read with no `orderBy`, so which team plays as A, B, C and D is the database's order. The ensures fixes it to the order of the team table.
- MatchController.GenerateSchedule: the source returns the created matches ordered by date, and the database decides the order of matches on the same date. The model returns them in the order they were created, which is already date order.
- JavaScript compares strings by UTF-16 code units, and the model compares character codes. The two orders agree only on text without surrogate pairs.
- The team object embedded in the league statistics lines is represented by its id.
- MatchStatsModal.UpdateStat: on a player without a draft, the source builds an object holding only the edited field. The model gives a draft whose other fields are absent.
- The schedule options the match list posts (rounds, days between matches, off days, play and rest days) are ignored by the server, which reads only `startDate` and `weeks`. The off-day toggle is modelled; no scheduler uses it.

## Findings

| source | as written | input that shows it | evidently intended | confidence | as-written member | corrected member |
|---|---|---|---|---|---|---|
| server/src/controllers/matchController.ts:175-177 | `homeScore !== null` treats an absent score as present | the dashboard saves a match where only the home score was typed: the body has no `awayScore`, so the status is PLAYED and the away score is `parseInt(undefined)`, NaN | an absent score counts like `null` (`!= null`), so the match stays SCHEDULED | not executed | MatchController.MissingScoreCountsAsPresent | MatchController.IntendedOneScoreStaysScheduled |
| frontend/src/lib/api.ts:14 | `.replace('/api', '')` removes the first `/api` in the base URL | `VITE_API_URL = https://api.example.com/api` gives image URLs under `https:/.example.com/api` | drop the trailing `/api`, so images come from `https://api.example.com` | not executed | ImageUrl.FirstApiIsInTheHost | ImageUrl.OriginServesPaths |
