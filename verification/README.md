# Verified model of the osu! server core

The stateful algorithms of the server, modelled in Dafny and proved. SQL tables are sets, maps or sequences of rows, a
transaction or a Lua script is one atomic step, and classes carry the fields the source updates in place. Each method is
proved against a specification function or relation, and the theorems are about that specification over every input, every
run or every reachable state. Floating point is `real`. Pp values, the mod policy, the beatmap policy, the settings, the
MD5 digest and the negative-map set are parameters.

| file | models |
|---|---|
| Wrappers, Ordering, ScoreModel | option and result values, `sorted` and `ORDER BY`, the score records |
| PpArithmetic, LevelCurve | weighted pp and accuracy totals, the level loop and its inverse |
| ScoreEngine, LeaderboardIndex, ShownScores, EngineRuns, RankedScore, LevelRuns, GradeTies, PlayCounters, PpCache, PpRows | what one processed score does to the tables, and what any run of them leaves behind |
| AdminRebuild, AdminService, DeletionRuns, DeletionFrame | deleting a score and rebuilding everything that depended on it |
| Leaderboard | the paging loop behind a beatmap leaderboard |
| RateLimit | the sliding-window limiter |
| BeatmapFetch, FetchCauses | coalesced downloads as interleaved coroutine steps, and what each caller ends with |
| Room | a multiplayer room from creation to its end |
| PluginOrder | the load order of plugins |
| IsoWeeks, DailyChallenge | the week calendar of ISO 8601 and the daily challenge streaks |
| BbCode, BbErrors, BbLists, BbQuotes, BbShapes | the content check, and the passes for simple tags and list items, on strings |
| PlaylistAround | the scores around one playlist score |
| TokenStore | the bounded token table |

## What the proofs found

- Deleting a score is an exact undo if and only if two conditions hold of the surviving scores (`DeletionIsUndoIff`): the
  rebuild's own pp test selects the same best plays, and every play earns the same credit under both length fields. The
  live path credits the beatmap's total length (app/router/v2/score.py:241), the rebuild its hit length
  (app/service/admin_score_service.py:152), so play time and play counts can change. The rebuild's pp test also asks for
  `ranked_score_eligible` and a positive pp, which the live test does not. `DrainTimeBreaksUndo` and
  `WorthlessPlayBreaksUndo` are deletions that are no undo.
- In classic scoring the leaderboard rows can lose the best total, because rounded display scores decide what is an
  improvement (`ClassicRoundingLosesATotal`). `RowsAfterIndexesIff` says exactly which updates do so, and
  `IndexAlongRunIffRecordsShow` which histories. Ranked score stays right all the same: whatever total is lost, the highest
  display score is not (`RowsShowTheHighest`), so it is the sum of the best display scores in both modes
  (`SteadyRankedScore`).
- One play can leave the grade counters wrong by getting the best row of a map without displaying as more and with another
  rank: as a first play without points, by an equal total and a lower id, or, in classic scoring, by a better total under
  other mods that displays no higher (`ClassicTieBreaksGrades`). `GradesBreakIff` proves for both modes that, where a
  higher total never displays as less, nothing else does.
- The first 99 entries of the level table sum to exactly 26931190827, so for n > 100 the two level functions are exact
  inverses.
- The leaderboard loop is right for every limit if and only if no tie hides a user behind a prefix that repeats one
  (`PagingIsExactIffTieSafe`), and its third result counts unread rows, not users (`CountIsFoundPlusUnread`).
- A cleanup removes whatever request is registered under its key. An owner that fails while a waiter holds the lock has to
  queue for its cleanup, and then removes the request that the waiter has registered meanwhile, so that two downloads of one
  key can run (`FailuresAllowTwoFetches`, two failures). `TrackingBreaksIff` proves that only such a cleanup loses a
  download, and `StrayAllowsSecondFetch` that the next caller then starts a second one.
- The stored participant count of a room is ahead by the number of host hand-overs since the last count, and by one in a new
  room (`CountIsActivePlusDrift`). Before the host's own join arrives, a leave call by anybody ends the room.
- The weekly streak restarts on a second day in the same week, and is exact if and only if that did not happen
  (`WeeklyStreakExactIff`).
- The tag check exempts a tag named `*`, but its pattern only finds names made of word characters, so list items are
  invisible to it (`ScannedNamesAreWords`). It accepts `[b][*][/b]`, for which the passes write misnested HTML before
  sanitising (`ItemBreaksNesting`). For text with simple tags, the HTML of accepted text is well nested if and only if the
  check accepts each list item on its own (`AcceptedHtmlIsWellNestedIff`).
- The page above a playlist score fits the reported position if and only if the player has no better row of their own
  (`HigherPageFitsPositionIff`).

## Model

| member | source | states |
|---|---|---|
| PpArithmetic.CalculateUserPp | app/database/score.py:1098-1111 | the accumulating loop yields the signed weighted pp total and the normalised, clamped accuracy of the rows in order |
| PpArithmetic.WeightsSumToSeries | app/calculating/osu.py:348-359 | the weights 0.95^0 .. 0.95^(n-1) sum to 20 (1 - 0.95^n), the divisor that the accuracy normalisation uses |
| PpArithmetic.HitAccuracyIsWeightedMean | app/database/score.py:1106-1110 | accuracies between low and high give a hit accuracy that is 100 times their weighted mean, lies between 100 low and 100 high, and is never clamped |
| PpArithmetic.DescendingOrderIsBest | app/database/score.py:1133-1141 | without negative maps no order of the same rows has a larger weighted total than the descending one |
| PpArithmetic.TotalBelowTwentyTimesTop | app/calculating/osu.py:362-372 | with a positive top play the signed total lies strictly between -20 and 20 times it |
| PpArithmetic.NegativeMapsCountAgainst | app/database/score.py:1100-1105 | the total is what the rows on other maps are worth at their weights minus what those on negative maps are worth at theirs |
| PpArithmetic.DominatingTotal | app/database/score.py:1104-1105 | a list at least as good at every position has at least the total of the other |
| PpArithmetic.BetterPlayNeverLowersTotal | app/database/score.py:1114-1141 | adding a best play, or replacing one of the same beatmap by a better one, never lowers the total, across the cut at 1000 rows |
| PpArithmetic.GetUserBestPp | app/database/score.py:1133-1141 | the query returns the user's rows of the mode by pp then score id, both descending, at most 1000 |
| PpArithmetic.BestPpRowsAreTheTop | app/database/score.py:1133-1141 | told by the columns: the user's rows of the mode, all of them up to 1000, higher pp and then higher id first, and no row left out stands before one of them |
| LevelCurve.CalculateScoreToLevel | app/calculating/osu.py:337-345 | the loop ends for every total and returns the level that the recursive specification gives; the level is whole at each table lookup |
| LevelCurve.LevelOnSegment | app/calculating/osu.py:340-343 | between the costs of n and n+1 levels the level rises in proportion to the score paid, from n+1 to n+2 |
| LevelCurve.WholePartCountsPaidLevels | app/calculating/osu.py:340-345 | the whole part of the level is n+1 exactly when n levels and no more are paid in full |
| LevelCurve.LevelIsMonotone | app/calculating/osu.py:207-345 | a larger total never gives a lower level, and gives a strictly higher one from zero on |
| LevelCurve.CapTotalIsTheTableSum | app/calculating/osu.py:219-319 | the first 99 table entries sum to exactly 26931190827 |
| LevelCurve.LevelRoundTrip | app/calculating/osu.py:189-204 | for n > 100 the level of the score required for level n is n |
| ScoreEngine.BestRowIsMaximal | app/database/score.py:912-940 | whichever tied row the query returns, it is a row of the table with the largest total |
| ScoreEngine.GameplayStore.ScoreStatistics | app/database/score.py:1538-1553 | total score, grade exchange, ranked score, level and combo of one play, in place, equal their specification, whose level LevelRuns.LevelIsThatOfTheLastRaise tells on the history |
| ScoreEngine.GameplayStore.UpdateTotals | app/database/score.py:1554-1613 | the four row cases leave exactly the rows of the specification, other keys untouched |
| ScoreEngine.GameplayStore.PpStatistics | app/database/score.py:1660-1661 | pp and accuracy are recalculated from the pp table exactly for a passed play with pp |
| ScoreEngine.GameplayStore.ProcessStatistics | app/database/score.py:1481-1670 | one play changes rows, statistics, monthly and beatmap counters as specified, and changes nothing when the statistics row is missing |
| ScoreEngine.GameplayStore.ProcessScorePp | app/database/score.py:1334-1391 | the stored pp and the best-pp row after one play, including the ineligible, cached, failed and no-improvement cases, whose columns PpRows.RunRowColumns and PpRows.StoredPpAfterRun tell |
| ScoreEngine.GameplayStore.ProcessUser | app/database/score.py:1737-1765 | pp first, then statistics, then the processed mark, or nothing at all |
| LeaderboardIndex.RowsAfterIndexesIff | app/database/score.py:1554-1613 | in each of the four cases, for any tied row and any display difference, the rows still index the plays iff the update is safe: a best row that goes unbeaten leaves an equal one, and a best row that stays alone for its mods is not beaten |
| LeaderboardIndex.IndexAlongRunIff | app/database/score.py:1501-1613 | under changing policies, any scoring mode and any tied choices, the rows index the plays after every score of a run iff every update was safe |
| LeaderboardIndex.IndexRefinesHistory | app/database/score.py:1501-1613 | while a higher total never displays as less, and a play that beats the highest total so far, under the mods of a play that has it, displays as more, after any run rows exist iff an eligible passed score was processed, their maximum is the maximum of those scores, and score ids are distinct |
| LeaderboardIndex.IndexAlongRunIffRecordsShow | app/database/score.py:1501-1613 | in a fixed scoring mode, when equal totals have equal mods, the second of these conditions on the history alone is necessary as well as sufficient for the rows to index the plays all along the run |
| LeaderboardIndex.StandardisedIndex | app/calculating/osu.py:137-161 | in standardised mode this needs no condition on the scores |
| LeaderboardIndex.ClassicRoundingLosesATotal | app/calculating/osu.py:164-186 | in classic mode, on an osu! map of a hundred objects, plays of totals 600000 and 600001 leave rows that miss the larger total |
| ScoreModel.ClassicIsMonotone | app/calculating/osu.py:164-186 | for every ruleset and one object count the rounded classic score of totals from zero on is not negative and never falls as the total rises |
| ScoreModel.DisplayOnFields | app/calculating/osu.py:137-186 | the display score on integers: the total in standardised mode, and in classic mode the nearest integer to the fit of osu!, taiko and catch, even on a half, with relax or not, and the total in every other mode |
| ShownScores.RowsAfterShow | app/database/score.py:1554-1613 | in all four cases, for any tied rows, the rows keep a play with the highest display score, whatever total they lose |
| ShownScores.RowsShowTheHighest | app/database/score.py:1501-1613 | so they do after any run in either scoring mode |
| ShownScores.RowsCarryPlays | app/database/score.py:1554-1613 | every row has the user, beatmap, mode, id, total, rank and mods of one of the plays |
| ShownScores.NextBestRow | app/database/score.py:1554-1613 | in either mode the best row after a play is the play's own iff there was none, or it beats the best total and improves or has other mods than the best row, or it has that total, a lower id and no row of its mods with it; otherwise the old one stays |
| ShownScores.SteadyPlaysNeverShowLess | app/calculating/osu.py:137-186 | in either mode plays of one object count without negative totals display in the order of their totals |
| EngineRuns.LiveRunTables | app/database/score.py:1700-1765 | a run of processed scores changes the leaderboard rows exactly as the row history says and keeps the scores |
| RankedScore.BestPlayIsFirstMaximum | app/database/score.py:912-940 | the reference best play is the first play to reach the largest total |
| RankedScore.BestRowHasBestTotal | app/database/score.py:912-940 | whichever tied row the query returns, it copies a play with the total of the best play |
| RankedScore.BestRowHasBestRank | app/database/score.py:1501-1504 | after any run in either mode, with ties broken by the lowest id and plays of equal display score in table order or of equal rank, the row the engine compares with has the rank of the best play |
| RankedScore.BestPlayKeepsItsRowIff | app/database/score.py:1554-1613 | in a fixed mode in which a higher total never displays as less, for any tied choices, the row of the best play is there all along a run iff the rows index the plays all along it |
| RankedScore.ImprovementOverBest | app/database/score.py:1534-1539 | in either mode and for any tied choice the difference the engine computes is the distance to the best play's display score, which no play exceeds, and if it is positive the best total is beaten |
| RankedScore.RankedMeansLeaderboard | app/database/score.py:1492-1498 | for scores with eligibility recorded on submission and valid settings, ranked means ranked map and leaderboard |
| RankedScore.WithdrawnFlagsCount | app/database/score.py:1492-1553 | a play without ranked-score eligibility leaves ranked score, grades, level and combo alone, one without leaderboard eligibility the rows, one that is not ranked stored pp, pp rows, pp and accuracy |
| RankedScore.AdjustedGrades | app/database/statistics.py:179-193 | while the counters cover the replaced row, one is added, one removed and the clamp at zero never fires |
| RankedScore.RankedScoreTelescopes | app/database/score.py:1545-1550 | after any run of a fresh user in either mode, for any tied choices and any order of ties, ranked score is the sum over ranked beatmaps of the best play's display score |
| RankedScore.WorthIsTheLargest | app/database/score.py:1534-1550 | and that display score is the largest among the plays of the beatmap |
| RankedScore.SteadyRankedScore | app/calculating/osu.py:137-186 | for both scoring modes this needs only totals from zero on and one object count per beatmap and mode |
| RankedScore.GradeCountsTelescope | app/database/score.py:1545-1549 | in either mode, with ties broken by the lowest id, plays of equal display score in table order or of equal rank, and plays worth something, each grade count is the number of ranked beatmaps whose best play has that grade |
| GradeTies.GradesBreakIff | app/database/score.py:1545-1613 | from counters that count the best rows, in either mode, a play leaves them wrong iff it is passed, on a ranked map with leaderboard, and is a first play without points, or has another rank than the best row and takes its place by a lower id on an equal total or by a better total under other mods that displays no higher |
| GradeTies.ClassicTieBreaksGrades | app/calculating/osu.py:164-186 | in classic mode a play of 600001 with hidden after one of 600000 does so on a map of a hundred objects |
| PlayCounters.CountersAreSums | app/database/score.py:1538-1658 | after any run total score and each hit counter is what it was plus the sum over the row's plays, ticks counted as hits in the fruits modes |
| PlayCounters.HitsBalance | app/database/score.py:1635-1658 | from a fresh row the total of hits is the three hit counters plus the ticks that none of them shows |
| PlayCounters.PlayCountersCountValidPlays | app/database/score.py:1614-1623 | the statistics row, the month's row and the beatmap's row each count exactly the valid plays under their key |
| PlayCounters.CreditOnFields | app/database/score.py:1162-1199 | a play counts, with its whole seconds, iff it passed, or lasted more than 8 seconds with 5000 points and 20 objects or a tenth of the scoring ones hit |
| PlayCounters.PlayTimeIsCredited | app/database/score.py:1614-1623 | after any run the play time is what it was plus the seconds of the valid plays, at the total lengths of their maps |
| PlayCounters.CounterRowsExist | app/database/score.py:1614-1623 | after any run the month rows are those of the months played in, and the beatmap rows those of the maps with a valid play, besides the ones there were |
| PlayCounters.MaximumComboIsLargest | app/database/score.py:1552-1553 | the stored combo is the largest over the passed ranked plays and never shrinks |
| RankedScore.LevelNeverAhead | app/database/score.py:1546-1551 | the stored level never exceeds the level of the stored total score, after any run |
| LevelRuns.LevelIsThatOfTheLastRaise | app/database/score.py:1538-1551 | after any run of a fresh user in either mode the total score is the sum of the display scores, and the level is that of the sum up to and including the last passed play on a ranked map with leaderboard that displayed above zero and above every earlier play there, or 1 if there was none |
| PpCache.FirstMaxPpIsFirstBest | app/database/score.py:1369-1384 | the reference row belongs to the first awarded play with the largest pp |
| PpCache.LiveBests | app/database/score.py:1369-1384 | after any run the pp table holds, per user, beatmap and mode, exactly the row of the first play to reach the largest pp, or none |
| PpCache.StepKeepsCache | app/database/score.py:1737-1764 | one step keeps stored pp and accuracy equal to the total of the table |
| PpCache.PpCacheAgreement | app/database/score.py:1334-1391 | both together, after any run |
| PpCache.NoRowsNoPp | app/database/score.py:1098-1111 | an empty table means zero pp and zero accuracy |
| PpRows.RunRowColumns | app/database/score.py:1369-1384 | after any run the one row of a key has the user, beatmap, mode, id, accuracy and pp of the first play of the run that earned the most, and there is none if no play earned anything; what a play earns is told on its fields |
| PpRows.StoredAccuracyIsWeightedMean | app/database/score.py:1103-1111 | after any run the stored accuracy is 100 times the weighted mean of the accuracies of plays that are the first best of their beatmaps, highest pp first, and zero without any |
| PpRows.StoredPpAfterRun | app/database/score.py:1340-1368 | a run leaves in the pp column of each of its scores what the play earned, zero for a play that cannot earn any, and what was there otherwise |
| AdminRebuild.SurvivorsAreTheProcessedScores | app/service/admin_score_service.py:95-107 | the replayed list holds each processed score of the user once, in (ended_at, id) order |
| AdminRebuild.PpBestIsFirstMax | app/service/admin_score_service.py:111-127 | the batch dictionary keeps, per key, the first score with the largest eligible pp |
| AdminRebuild.BatchRowsOfKey | app/service/admin_score_service.py:128-141 | the rows inserted in one batch are exactly those first bests |
| PpRows.RebuiltRowColumns | app/service/admin_score_service.py:111-141 | after a rebuild the one row of a key has the columns, accuracy included, of the first surviving play with the largest pp that passes the rebuild's test, told on fields |
| AdminRebuild.BestsAgreeIff | app/service/admin_score_service.py:111-141 | the batch pp rows equal those of live processing iff the rebuild's test picks the same best plays |
| AdminRebuild.RebuildAgreesMasked | app/service/admin_score_service.py:79-155 | without any condition, leaderboard rows and every statistic except pp, accuracy and play counters equal those of live processing |
| AdminRebuild.RebuiltCache | app/service/admin_score_service.py:143-155 | after the rebuild stored pp and accuracy are those of the rebuilt table, although it was filled before the replay |
| AdminRebuild.RebuildAgreesIf | app/service/admin_score_service.py:76-155 | under the two conditions a rebuild shows the same tables as live processing of the surviving scores from a cleared state |
| AdminRebuild.RebuildAgreesOnlyIf | app/service/admin_score_service.py:76-155 | and only then |
| AdminRebuild.DeletionIsUndoIff | app/service/admin_score_service.py:176-204 | deleting a score shows what live processing of the others would have shown iff both conditions hold |
| AdminRebuild.PositivePpAgrees | app/service/admin_score_service.py:114-121 | awarded pp above zero and ranked implying ranked-score eligibility are enough for the pp condition |
| DeletionRuns.DrainTimeBreaksUndo | app/service/admin_score_service.py:152 | with a passed survivor of 100 seconds on a map of 120 seconds total and 90 hit length, deleting another score does not show what live processing would have shown |
| DeletionRuns.CreditGapBreaksUndo | app/service/admin_score_service.py:152 | one survivor that the two lengths credit differently is enough for that |
| DeletionRuns.WorthlessPlayBreaksUndo | app/service/admin_score_service.py:114-121 | so is a survivor that is the only awarded play of its beatmap and is worth no pp |
| DeletionRuns.StoredPpReproducesAwards | app/database/score.py:1347-1368 | the pp that a run stores earns each score, processed again, what it earned the first time |
| DeletionRuns.RunIsOneUsers | app/database/score.py:1700-1765 | processing one user's scores leaves the rows, statistics and counters of all others alone |
| DeletionRuns.DeletionUndoesProcessingIff | app/service/admin_score_service.py:176-204 | process a fresh user's scores in order and delete one: what shows is what processing the others alone would have shown, iff both conditions hold of the others |
| DeletionRuns.DrainTimeCase | app/service/admin_score_service.py:152 | for a user with two plays of one map with those two lengths, deleting the second play is no undo |
| DeletionRuns.WorthlessPlayCase | app/service/admin_score_service.py:114-121 | nor is it with equal lengths, when the remaining play is worth no pp |
| AdminRebuild.LiveLeavesOthers | app/database/score.py:1700-1765 | processing one user's scores changes nothing of another user |
| AdminService.BuildPpBest | app/service/admin_score_service.py:111-127 | the dictionary loop computes the specified batch |
| AdminService.ClearTables | app/service/admin_score_service.py:79-93 | all rows and counters of the user are gone and the statistics are reset, nothing else changes |
| AdminService.SelectSurvivors | app/service/admin_score_service.py:95-107 | the ordered query returns the surviving scores in (ended_at, id) order |
| AdminService.RebuildUserGameplayAggregates | app/service/admin_score_service.py:76-155 | clear, batch pp rows, replay equals the specified rebuild, and a missing statistics row leaves everything as it was |
| AdminService.DeleteUserScore | app/service/admin_score_service.py:176-204 | answers whether the score is there and its user is this one, removes it exactly then, and performs the specified deletion |
| DeletionFrame.ForeignScoreStays | app/service/admin_score_service.py:182-191 | deleting a score of another user, or none, changes nothing |
| DeletionFrame.DeletionSparesOthers | app/service/admin_score_service.py:176-204 | for every user and id, all scores, stored pp, processed marks, rows, statistics and counters of every other user stay as they were |
| DeletionFrame.OwnedScoreGoes | app/service/admin_score_service.py:176-204 | an owned score is gone with every row that refers to it, the other scores stay, and the user's rows refer to scores that are there, iff each processed score that stays has a statistics row; otherwise the rebuild fails and nothing changes |
| DeletionFrame.ClearedColumns | app/service/admin_score_service.py:44-93 | clearing zeroes every column of the user's statistics, with level 1, and leaves the user no row and no counter |
| DeletionFrame.ReplayedInOrder | app/service/admin_score_service.py:95-107 | the rebuild replays every processed score of the user once, earlier end first and lower id on equal ends |
| Leaderboard.AddPage | app/database/score.py:784-793 | one page adds the first row of each new user in order, counts the repeats, and never replaces a found row |
| Leaderboard.GetLeaderboard | app/database/score.py:773-796 | the loop ends for every limit and returns the rows and the count of its page-by-page specification |
| Leaderboard.WhereAfterPage | app/database/score.py:779 | the strict bound resumes after the page and after the rest of its last tie |
| Leaderboard.PagingIsExactIffTieSafe | app/database/score.py:774-794 | the loop yields the first rows of the first min(limit, users) users for every limit iff no tie hides a new user behind a prefix that repeats one |
| Leaderboard.LoopYieldsTopUsers | app/database/score.py:774-796 | with distinct totals: one row per user, descending, min(limit, users) of them, each its user's best, all above every left-out user's rows |
| Leaderboard.FirstsCover | app/database/score.py:784-793 | on a descending table the first row of a user is at least as good as any of that user's rows |
| Leaderboard.CountIsFoundPlusUnread | app/database/score.py:772-789 | the returned count is the number of returned rows plus the number of rows never read |
| Leaderboard.TieHidesAUser | app/database/score.py:779 | three tied rows of two users and limit 2 give one user |
| RateLimit.RedisRateLimiter.constructor | app/dependencies/rate_limit.py:56 | the rates are kept sorted by interval, as a permutation of the arguments |
| RateLimit.RedisRateLimiter.TryAcquire | app/dependencies/rate_limit.py:19-44 | one script run: expiry, pruning, the check of every rate, insertion of the weight, and an expiry after the longest interval and ten seconds more, or an error without rates |
| RateLimit.DecisionsMatchHistory | app/dependencies/rate_limit.py:27-37 | on any non-decreasing clock the decision on the pruned, expiring set is the decision on everything ever accepted, the longest window open at its old end and the others closed |
| RateLimit.AcceptedIsHistory | app/dependencies/rate_limit.py:27-43 | what the script accepts on its own set is what decisions on the full history accept, over any run |
| RateLimit.AdmittedIffFits | app/dependencies/rate_limit.py:29-37 | after any run a call is admitted iff for every rate the accepted requests of its window, open at the old end for the longest interval and closed for the others, and this one stay within the limit |
| RateLimit.RejectedOnlyWhenFull | app/dependencies/rate_limit.py:34-36 | a rejection exhibits a rate whose accepted requests and this one exceed the limit |
| RateLimit.LogGrowsBy | app/dependencies/rate_limit.py:39-41 | an admitted call adds its weight at its time to what has been accepted, a rejected one nothing |
| RateLimit.CountIsCardinality | app/dependencies/rate_limit.py:33 | the count of a window is the number of entries with a time in it, both ends included |
| RateLimit.AcceptedStaysWithinLimits | app/dependencies/rate_limit.py:29-41 | what the script accepted in any window (t - interval, t] never exceeds that rate's limit, for every rate and every t |
| BeatmapFetch.BeatmapRawFetcher.Advance | app/fetcher/beatmap_raw.py:120-173 | a coroutine runs until it really suspends: through a free lock and done futures, into the queue of a held lock, and changes the lock, the table, the futures and its own outcome as the step function says |
| BeatmapFetch.RunKeepsInv | app/fetcher/beatmap_raw.py:120-173 | in every interleaving owners, lock holder, queue of the lock, futures and table stay consistent |
| BeatmapFetch.ReturnedTextsMatch | app/fetcher/beatmap_raw.py:212-227 | every text any caller gets, directly or through a shared future, has the requested checksum |
| BeatmapFetch.CompletedOnce | app/fetcher/beatmap_raw.py:159-168 | no step changes a completed future |
| BeatmapFetch.NoDeadlock | app/fetcher/beatmap_raw.py:141-150 | while any caller is unfinished some step other than a cancellation is possible, though a waiter may hold the lock |
| BeatmapFetch.RunsAreShort | app/fetcher/beatmap_raw.py:120-173 | n callers take at most 14 n steps in any interleaving |
| BeatmapFetch.StuckMeansFinished | app/fetcher/beatmap_raw.py:120-173 | a run that cannot go on has answered every caller |
| FetchCauses.WaiterGetsTheText | app/fetcher/beatmap_raw.py:130-158 | awaiting a request that was served ends the caller with its text, on the first wait and on the one that holds the lock, which is then free |
| FetchCauses.AwaitedOutcomeArrives | app/fetcher/beatmap_raw.py:130-158 | over any run whoever awaits a request that is done with a text ends with that text unless cancelled itself, and whoever awaits a cancelled one ends cancelled |
| FetchCauses.OwnerKeepsItsText | app/fetcher/beatmap_raw.py:159-173 | a served download completes its request, and its owner ends with the text or takes it into the queue for its cleanup |
| FetchCauses.OwnerEndsWithItsText | app/fetcher/beatmap_raw.py:159-173 | over any run a caller whose download is served ends with that text unless it is cancelled while it queues |
| FetchCauses.CancelReachesTheRequest | app/fetcher/beatmap_raw.py:130-173 | cancelling a caller that awaits or downloads for an open request cancels the request |
| FetchCauses.EveryOutcomeHasACause | app/fetcher/beatmap_raw.py:120-173 | in every interleaving, with failures and cancellations: who ends with a text got one that a caller of the same key was served, who ends with an error had its own download fail, and who ends cancelled shares its key with a cancelled caller |
| FetchCauses.UndisturbedCallersGetAText | app/fetcher/beatmap_raw.py:120-173 | without failures and cancellations of a key every caller of it that ends has a text that one of them was served |
| FetchCauses.UndisturbedRunServesAll | app/fetcher/beatmap_raw.py:120-173 | and when such a run can only go on by cancellations, all of them have |
| BeatmapFetch.AtMostOneFetch | app/fetcher/beatmap_raw.py:120-158 | without failures or cancellations of a key, two callers of it are never fetching at once |
| BeatmapFetch.TrackingBreaksIff | app/fetcher/beatmap_raw.py:170-173 | while every download of a key is the registered request, a step ends that iff it is a cleanup that forgets the request of somebody who is still downloading |
| BeatmapFetch.StrayAllowsSecondFetch | app/fetcher/beatmap_raw.py:141-173 | if the lock is free behind such a cleanup, the next caller of the key that runs starts a second download beside the forgotten one |
| BeatmapFetch.OneFetchWithoutStrays | app/fetcher/beatmap_raw.py:141-173 | with failures and cancellations, until such a cleanup a key is never downloaded twice at once |
| BeatmapFetch.FailuresAllowTwoFetches | app/fetcher/beatmap_raw.py:141-173 | a run of four callers with two failures after which two of them download the same key at once |
| BeatmapFetch.FetchBeatmapRaw | app/fetcher/beatmap_raw.py:192-242 | the first answer below status 400 with a body of the requested checksum wins; otherwise the error is a mismatch iff some answer below 400 had a body, a missing beatmap if the last source answered at all, and a failed request if not |
| Room.MultiplayerRoom.constructor | app/router/lio.py:237-250 | a new room counts its host and has no participation row |
| Room.MultiplayerRoom.AddOrUpdateParticipant | app/router/lio.py:339-373 | one active row is refreshed and duplicates are left, or a row is added |
| Room.MultiplayerRoom.UpdateRoomParticipantCount | app/router/lio.py:429-451 | the stored count becomes the number of active rows |
| Room.MultiplayerRoom.EndRoomIfEmpty | app/router/lio.py:454-487 | the room is recounted and ended exactly when it is empty and not a tournament room |
| Room.MultiplayerRoom.TransferOwnershipOrEndRoom | app/router/lio.py:490-519 | the earliest joined remaining user becomes host, any of them on a tie, without a recount, or the room ends |
| Room.MultiplayerRoom.RemoveUser | app/router/lio.py:606-661 | a leave transaction as a relation: ended room, absent user, host hand-over, other user |
| Room.LeavingOnFields | app/router/lio.py:606-661 | a leave call for an open room closes the user's active rows at its time and no other row, ends the room then iff nobody is active and it is no tournament, and counts the active rows except on a hand-over |
| Room.MultiplayerRoom.AddUser | app/router/lio.py:705-727 | a join transaction: ended, missing or wrong password change nothing, otherwise the user is seated and the room recounted |
| Room.WrongPasswordSeatsNobody | app/router/lio.py:705-727 | in an open room with a password, none gives the error that asks for one, another one the error of a wrong one, and nothing changes |
| Room.RightPasswordSeats | app/router/lio.py:705-727 | the right password, or any where there is none, leaves the user with one active row of that time and everybody else's rows as they were, and counts the active rows |
| Room.RejoinedLeavesOne | app/router/lio.py:339-373 | whatever duplicates there were, one active row remains for the user and no other user's seat changes |
| Room.OneActiveAlways | app/router/lio.py:339-373 | over any run no user gains a second active row |
| Room.SeatsFollowTheLog | app/router/lio.py:606-727 | a user's seat and join time after any run are those of the user's last effective call |
| Room.HandOverPicksEarliest | app/router/lio.py:500-516 | the host changes exactly on a hand-over, to an active user nobody joined before |
| Room.HandOverPicksEarliestJoin | app/router/lio.py:500-516 | in terms of the calls made, the new host's last join is no later than that of anybody still present |
| Room.HostLosesSeatIff | app/router/lio.py:641-651 | a seated host's seat is lost exactly when the host leaves an open room and nobody else is there |
| Room.EndsExactlyWhenVacated | app/router/lio.py:465-487 | a step ends an open room exactly when it is a leave after which nobody is active, tournaments apart |
| Room.HostStaysSeated | app/router/lio.py:606-727 | over any run, once the host of a non-tournament room is seated, the host of the still open room is |
| Room.EndedForever | app/router/lio.py:611-613 | an ended room, by time or by emptiness, never changes again |
| Room.CountIsActivePlusDrift | app/router/lio.py:511-516 | the stored count is the number of active rows plus the hand-overs since the last count |
| Room.NewRoomEndsOnAnyLeave | app/router/lio.py:626-629 | a leave by anybody before the first join ends a new room |
| Room.TournamentLosesItsHost | app/router/lio.py:468-470 | a tournament room whose host leaves alone stays open with that absent host |
| PluginOrder.DetermineLoadOrder | app/plugins/manager.py:106-149 | fails iff the graph has a cycle or an undetected dependency, naming a plugin on a cycle or the dependency that is missing, and otherwise returns a permutation in which every dependency comes first and each order is the length of the longest dependency chain; plugins of equal order keep their places |
| PluginOrder.Search.Dfs | app/plugins/manager.py:124-143 | one search returns with the stack restored and the order extended, or names a plugin on a cycle or a missing dependency |
| PluginOrder.CycleOnBranch | app/plugins/manager.py:127-128 | meeting a plugin on the recursion stack exhibits a cycle |
| PluginOrder.RankedMeansLongest | app/plugins/manager.py:131-143 | an order that is one above the largest dependency excludes cycles and is the longest chain length |
| PluginOrder.DependencyComesFirst | app/plugins/manager.py:149 | sorting by the order puts each dependency before its plugin |
| IsoWeeks.OrdinalOrdersDates | app/helpers/time.py:24-25 | day numbers order Gregorian dates as (year, month, day) does |
| IsoWeeks.NextDayIsNext | app/helpers/time.py:24-25 | the day after a date has the next day number |
| IsoWeeks.KnownDates | app/helpers/time.py:24-25 | four centuries have 97 leap days, and day numbers and weeks at several year ends are those of the calendar |
| IsoWeeks.Dec28LastWeek | app/helpers/time.py:38 | 28 December has the largest week number of its ISO year, 52 or 53 |
| IsoWeeks.Jan4IsInFirstWeek | app/helpers/time.py:24-25 | 4 January lies in week one, the definition of section 3.2.2 of ISO 8601:2004 |
| IsoWeeks.AdjacentIffNextIndex | app/helpers/time.py:14-42 | two dates are in adjacent weeks exactly when their Monday-based week indices differ by one |
| IsoWeeks.SameIffEqualIndex | app/helpers/time.py:45-55 | and in the same week exactly when these are equal |
| DailyChallenge.DailyChallengeStats.ProcessScore | app/database/daily_challenge.py:89-129 | a passed play updates the row by one specified step, another play changes nothing |
| DailyChallenge.DailyStreaksAreExact | app/database/daily_challenge.py:103-115 | for every log in time order the play count is the number of distinct days and the daily counters are the last and the longest run of days |
| DailyChallenge.WeeklyStreaksAreBounds | app/database/daily_challenge.py:116-126 | the weekly counters never exceed the last and the longest run of weeks |
| DailyChallenge.WeeklyStreakExactIff | app/database/daily_challenge.py:123-126 | the current weekly counter is the last run of weeks iff each week of it but the first has one logged day |
| DailyChallenge.WeeklyBestIsLongestTraced | app/database/daily_challenge.py:116-126 | the best weekly counter is the longest streak that the week rules trace after any of the plays |
| BbQuotes.ValidateBbcode | app/service/bbcode_service.py:865-897 | the errors are the one for content that is all quotes, if it is, and then those of the tags |
| BbQuotes.AllQuotesIff | app/service/bbcode_service.py:869-871 | the first error is reported iff the content consists of white space and at least one quote block, each an opening tag, text without a closing one, and that |
| BbShapes.QuoteIff | app/service/bbcode_service.py:903-917 | a quote block is `[quote]`, or that with a non-empty attribute, text without `[/quote]`, and `[/quote]`, in any mix of cases |
| BbCode.ValidateTags | app/service/bbcode_service.py:873-897 | the loop over the text reports the errors of the stack pass over its tags, in order |
| BbShapes.ScannerFindsTagsIff | app/service/bbcode_service.py:874-879 | the scanner finds a tag of some length iff there is a bracket, a slash if it closes, a word, no or a non-empty attribute without closing brackets, and a bracket; it has the word in lower case |
| BbShapes.TagsGoOn | app/service/bbcode_service.py:876-879 | the tags of a text are the one at the first place where a tag starts and those of what follows it, and none if there is no such place |
| BbCode.CleanIffBalanced | app/service/bbcode_service.py:873-897 | no tag error is reported iff the tag sequence is generated by the balanced grammar |
| BbErrors.FirstErrorNames | app/service/bbcode_service.py:873-897 | the first error is at the first closing tag that is not that of the innermost open tag of the grammar, and names it and that open tag if there is one; without such a tag the errors are the open tags, outermost first |
| BbCode.SplitSpellsText | app/service/bbcode_service.py:874-878 | text whose scanned tags are simple is spelled by those tags and the characters between them, stray brackets included, and scanning gives back those tags |
| BbCode.ScannedNamesAreWords | app/service/bbcode_service.py:889-890 | no scanned tag is named by an asterisk |
| BbCode.PatternMatchesTag | app/service/bbcode_service.py:223-225 | a tag pattern matches a tag iff side and name agree up to case, whatever follows |
| BbCode.SubTagOnChunks | app/service/bbcode_service.py:223-225 | both substitutions of one tag rewrite exactly the tags of that name |
| BbLists.ItemPassOnChunks | app/service/bbcode_service.py:544-550 | on escaped text in which the scanner finds only simple tags the list-item substitution puts an item around what stands between one `[*]`, with the white space behind it, and the next or the end |
| BbShapes.FirstItemIsWritten | app/service/bbcode_service.py:544-550 | on any text the item pass leaves what stands before the first `[*]`, drops that and the white space behind it, and puts an item around what follows, up to the next one, `[/list]`, the end, or a line break there |
| BbLists.PassesWriteHtml | app/service/bbcode_service.py:544-550 | on any text in which the scanner finds only simple tags, the item pass and all passes for tags, run on the escaped text, write the HTML of each item and tag and leave everything else without angle brackets |
| BbShapes.ElementsOfTags | app/service/bbcode_service.py:704-721 | the eight simple tags and the HTML tags they become |
| BbLists.EscapeRoundTrip | app/service/bbcode_service.py:142 | undoing the five entities gives back the text |
| BbLists.EveryStageIsSimple | app/service/bbcode_service.py:152-177 | before the item pass, after it and between the passes for tags, the scanner's pattern finds simple tags without attribute only, so no other pass has anything to match |
| BbLists.OtherTagsNeverMatch | app/service/bbcode_service.py:152-177 | in such text no tag of another name occurs before the item pass, nor after it and before, between or after the passes for tags, so a substitution for one changes nothing |
| BbLists.AcceptedHtmlIsWellNestedIff | app/service/bbcode_service.py:544-550 | the HTML that these passes write for accepted text is well nested iff the check accepts each of its list items alone, and so always without list items |
| BbLists.HtmlIsWellNestedIff | app/service/bbcode_service.py:704-721 | whatever the check says, what the passes write is well nested iff the tags, renamed to their elements, of each list item and of the rest pass the check on their own |
| BbLists.ItemBreaksNesting | app/service/bbcode_service.py:889-890 | the check accepts `[b][*][/b]`, and the passes write `<strong><li></strong></li>` for it |
| PlaylistAround.PositionIsRank | app/database/playlist_best_score.py:140-165 | the reported position is one more than the number of better rows, and the score stands there on the board |
| PlaylistAround.PositionCountsBetterRows | app/database/playlist_best_score.py:140-165 | one more than the rows with a higher total, or the same total and a lower score id |
| PlaylistAround.UnknownScoreHasNoPosition | app/database/playlist_best_score.py:163-165 | a score that is not on the board has position zero |
| PlaylistAround.PartitionScoresAround | app/database/playlist_best_score.py:53-73 | an error exactly for limits below one, and two empty pages with nothing beyond them for a score that is not there |
| PlaylistAround.AroundPivotIsASlice | app/database/playlist_best_score.py:53-73 | the reversed higher page, the pivot and the lower page are a contiguous slice of the board without the player's other rows, both pages as long as limit and board allow, both flags exact |
| PlaylistAround.OneRowPerUserSlice | app/database/playlist_best_score.py:53-73 | with one row per user it is a slice of the whole board at the reported position |
| PlaylistAround.PositionCountsOwnRows | app/database/playlist_best_score.py:62-66 | the reported position exceeds the place among rivals by the player's own better rows |
| PlaylistAround.HigherPageFitsPositionIff | app/database/playlist_best_score.py:62-73 | the higher page has min(limit, position - 1) entries for every limit iff there are none of those |
| TokenStore.TokenTable.LimitActive | app/auth.py:364-378 | the newest unexpired tokens stay, as many as the maximum leaves room for, any of equal age |
| TokenStore.TokenTable.StoreToken | app/auth.py:346-397 | one call: expired or all old tokens, surplus tokens and a duplicate go, the new one is added, keys stay unique |
| TokenStore.StoredTokenColumns | app/auth.py:346-397 | afterwards one token has the access token, with user, client and expiry as asked; all others were stored before; of these, the ones of other users and clients all stay, those of the pair only unexpired, and none in single-device mode |
| TokenStore.StoringLimitsThePair | app/auth.py:351-378 | from any table the user and client hold at most the maximum afterwards, exactly the new one in single-device mode, and no other pair gains a token |
| TokenStore.PairsStayLimited | app/auth.py:364-378 | once stored for, a pair never exceeds the maximum again over any run |
| TokenStore.AccessTokensStayUnique | app/auth.py:380-383 | no two stored tokens ever share an access token |
| TokenStore.DisplacedOnlyByNewer | app/auth.py:366-376 | a token is gone before it expires only if its access token was issued again or at least the maximum number of tokens no older were known for the pair |
| TokenStore.LimitNeedsPositiveMaximum | app/auth.py:365-376 | the limit is kept in every call iff the maximum is at least one |

## Left out

- RankedScore.RankedScoreTelescopes: asks that a higher total of one beatmap never displays as less and that no display score is negative, which SteadyRankedScore reduces to totals from zero on and one object count per beatmap and mode.
- RankedScore.GradeCountsTelescope: asks besides that the database breaks ties by the lowest id, that plays of equal display score come in table order or with equal ranks, and that plays are worth something; GradesBreakIff is the exact condition of one step.
- LevelRuns.LevelIsThatOfTheLastRaise: asks what RankedScoreTelescopes asks.
- PpRows.StoredAccuracyIsWeightedMean: asks for accuracies from zero to one, and for a stored accuracy that agreed with the pp rows before the run.
- DeletionFrame.DeletionSparesOthers: rows that refer to a score belong to the score's user, as the foreign keys of the processed scores make them.
- FetchCauses.UndisturbedCallersGetAText: a caller that is cancelled, or whose download fails, is not promised a text.
- GradeTies.GradesBreakIff: asks that a play which does not beat a row's total does not display as more than that row's score.
- LeaderboardIndex.IndexRefinesHistory: asks that a higher total never displays as less and that records display as more; IndexAlongRunIff and IndexAlongRunIffRecordsShow have the exact conditions, and StandardisedIndex needs none.
- LeaderboardIndex.IndexAlongRunIffRecordsShow: asks that equal totals of one beatmap have equal mods; otherwise the row that the database returns on a tie decides.
- AdminRebuild.DeletionIsUndoIff: compares leaderboard rows, pp rows, statistics, monthly and beatmap counters; the reset also clears `replays_watched_by_others`, which is therefore zero on both sides of the comparison and not restored. Playlist bests, attempt counts, score imports and tokens are not modelled. Hit lengths do not exceed total lengths, speed rates are positive, and every mode played has a statistics row (without one the rebuild fails and changes nothing).
- AdminService.ClearTables: the tables of playlist bests and item attempts are not modelled, so their clearing is not either.
- AdminService.RebuildUserGameplayAggregates: the rebuild of playlist bests and item attempts at the end is not modelled.
- AdminService.DeleteUserScore: the score's import, token and playlist rows are not modelled.
- Leaderboard.GetLeaderboard: the database lists ties in the same order for every page, and a row's total is its score's total; the own score appended at the end and the filters for friends, country, team and mods are not modelled.
- Room.MultiplayerRoom.RemoveUser: a transaction reads one instant from the clock; chat channels, status, playlists, the missing-room error and the other endpoints that touch a room are not modelled.
- BbCode.ValidateTags: `\w`, white space and case folding are those of ASCII, and the regex timeout does not occur.
- BbLists.PassesWriteHtml: tags with attributes, lists, sizes, image maps, smilies, the line breaks written last and sanitising are not modelled. Except for smilies, whose pattern needs an HTML comment, and list items, which are modelled, the patterns of the other passes contain a tag of another name or with an attribute, and EveryStageIsSimple says that none occurs.
- TokenStore.TokenTable.StoreToken: refresh tokens, scopes and login sessions are not modelled, so a clash of refresh tokens is not either.
- RateLimit.RedisRateLimiter.TryAcquire: members of the sorted set are distinct by construction of their random part, and times are whole milliseconds.
- BeatmapFetch.BeatmapRawFetcher.Advance: any runnable coroutine may run next, while the event loop takes them in the order in which they became runnable; lower-casing the checksum and the event hub are not modelled. Cancelling a caller that awaits a shared future cancels that future, as in asyncio.
- PluginOrder.DetermineLoadOrder: plugin ids are distinct, and the recursion limit of Python does not occur.
- LevelCurve.LevelRoundTrip: for n up to 100 the polynomial is a rounded fit to the table and is not related to it.
- DailyChallenge.DailyChallengeStats.ProcessScore: the playlist row decides only whether the play passed.
- Floating-point rounding of weights, pp, accuracy and levels.
- Activity events, rank-lost notices, Redis notifications, locking and retries around the modelled transactions.
- `process_playlist_best_score`: a failed play can replace a passed one, so only its attempt counter would be a claim.
- `Score.delete` and `TotalScoreBestScore.delete`: they subtract without restoring the next best; the rebuild is the path meant to be exact.
- Pp calculators, ranking policies, mod multipliers, sessions, passwords and HTTP routes.
