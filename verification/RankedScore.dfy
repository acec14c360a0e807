/** Ranked score, grade counts and level against the best play of each ranked beatmap. */
module RankedScore {
  import opened Wrappers
  import opened ScoreModel
  import opened ScoreEngine
  import opened LeaderboardIndex
  import opened ShownScores
  import opened EngineRuns
  import opened LevelCurve

  // ----- the best play -----

  /** The first play to reach the highest total. */
  function BestPlay(plays: seq<Score>): Option<Score> {
    if plays == [] then None
    else
      var n := |plays| - 1;
      var before := BestPlay(plays[..n]);
      if before.None? || plays[n].totalScore > before.value.totalScore then Some(plays[n]) else before
  }

  ghost predicate FirstMaximum(plays: seq<Score>, i: nat) {
    && i < |plays|
    && (forall j :: 0 <= j < |plays| ==> plays[j].totalScore <= plays[i].totalScore)
    && (forall j :: 0 <= j < i ==> plays[j].totalScore < plays[i].totalScore)
  }

  lemma {:induction false} BestPlayIsFirstMaximum(plays: seq<Score>) returns (i: nat)
    requires plays != []
    ensures FirstMaximum(plays, i) && BestPlay(plays) == Some(plays[i])
  {
    var n := |plays| - 1;
    if n == 0 {
      i := 0;
    } else {
      i := BestPlayIsFirstMaximum(plays[..n]);
      assert forall j :: 0 <= j < n ==> plays[..n][j] == plays[j];
      if plays[n].totalScore > plays[i].totalScore { i := n; }
    }
  }

  // ----- which row the engine compares with -----

  /** The row of the best play is among the rows. */
  ghost predicate HoldsBestPlay(rows: set<TotalRow>, plays: seq<Score>) {
    BestPlay(plays).Some? ==> TotalRowFor(BestPlay(plays).value) in rows
  }

  /** Whichever tied row the database returns, it has the total of the best play and copies some play. */
  lemma BestRowHasBestTotal(tie: set<TotalRow> -> TotalRow, rows: set<TotalRow>, plays: seq<Score>)
    requires PicksMember(tie) && Indexes(rows, plays)
    ensures BestRow(tie, rows).None? <==> plays == []
    ensures plays != [] ==>
      && BestPlay(plays).Some? && Copies(BestRow(tie, rows).value, plays)
      && BestRow(tie, rows).value.totalScore == BestPlay(plays).value.totalScore
  {
    hide Indexes;
    IndexedIsNonEmpty(rows, plays);
    if plays != [] {
      BestRowIsMaximal(tie, rows);
      hide BestRow;
      var i := BestPlayIsFirstMaximum(plays);
      var p := BestCopiesUnbeaten(rows, plays, BestRow(tie, rows).value);
    }
  }

  /** A play that displays as an earlier one does, but stands before it in the table, has its rank. */
  ghost predicate TiesHarmless(mode: ScoringMode, plays: seq<Score>) {
    forall i, j :: 0 <= i < j < |plays| && DisplayScore(mode, plays[i]) == DisplayScore(mode, plays[j]) ==>
      (plays[i].totalScore < plays[j].totalScore ||
       (plays[i].totalScore == plays[j].totalScore && plays[j].id < plays[i].id) ==>
       plays[i].rank == plays[j].rank)
  }

  lemma BestPlayAfter(plays: seq<Score>, s: Score)
    ensures BestPlay(plays + [s]) ==
      if BestPlay(plays).None? || s.totalScore > BestPlay(plays).value.totalScore then Some(s) else BestPlay(plays)
    ensures BestPlay(plays).None? <==> plays == []
  {
    assert (plays + [s])[..|plays|] == plays;
  }

  /** The best play by total has the highest display score as well. */
  lemma BestPlayShowsMost(mode: ScoringMode, plays: seq<Score>) returns (i: nat)
    requires NeverShowsLess(mode, plays) && plays != []
    ensures FirstMaximum(plays, i) && BestPlay(plays) == Some(plays[i])
    ensures ShowsMost(mode, plays, i)
  {
    hide DisplayScore;
    i := BestPlayIsFirstMaximum(plays);
  }

  // ----- whether the row of the best play stays -----

  /** After `k` scores the row of the best play of `key` is among its rows. */
  ghost predicate HoldsAt(scores: map<int, Score>, start: set<TotalRow>, steps: seq<Step>, k: nat, key: Key)
    requires k <= |steps|
  {
    HoldsBestPlay(RowsOf(TotalsRun(scores, start, steps[..k]), key), Plays(steps[..k], key))
  }

  lemma BestPlayKeptIff(
      rows: set<TotalRow>, plays: seq<Score>, s: Score,
      best: Option<TotalRow>, bestMod: Option<TotalRow>, difference: int)
    requires HoldsBestPlay(rows, plays) && DistinctRowIds(rows) && Answers(rows, s, best, bestMod)
    requires forall r :: r in rows ==> r.key == KeyOf(s)
    requires best.None? <==> plays == []
    requires best.Some? ==> BestPlay(plays).Some? && best.value.totalScore == BestPlay(plays).value.totalScore
    requires best.Some? && difference > 0 ==> s.totalScore > best.value.totalScore
    ensures HoldsBestPlay(RowsAfter(rows, best, bestMod, difference, s), plays + [s]) <==>
      StepSafe(rows, best, bestMod, difference, s)
  {
    BestPlayAfter(plays, s);
    if best.Some? && bestMod.Some? {
      RowKeepsKeyAndMods(bestMod.value, s);
      assert best.value.scoreId == bestMod.value.scoreId ==> best == bestMod;
      if difference <= 0 && best == bestMod && s.totalScore > best.value.totalScore {
        assert RowsAfter(rows, best, bestMod, difference, s) == rows;
        assert BestPlay(plays + [s]) == Some(s) && TotalRowFor(s) !in rows;
      }
    }
  }

  lemma StepKeepsBestPlayIff(
      scores: map<int, Score>, start: set<TotalRow>, steps: seq<Step>, k: nat, key: Key)
    requires WellFormedRun(scores, steps) && k < |steps|
    requires NeverShowsLess(steps[k].env.settings.scoringMode, Plays(steps[..k + 1], key))
    requires IndexedAt(scores, start, steps, k, key) && HoldsAt(scores, start, steps, k, key)
    ensures HoldsAt(scores, start, steps, k + 1, key) <==> IndexedAt(scores, start, steps, k + 1, key)
  {
    hide Indexes, StepSafe, WellFormedRun, HoldsBestPlay, NeverShowsLess, TotalsAfter, BestRow;
    var before, step := steps[..k], steps[k];
    assert steps[..k + 1][..k] == before && steps[..k + 1][k] == step;
    var totals, plays := TotalsRun(scores, start, before), Plays(before, key);
    StepKeepsIndexIff(scores, start, steps, k, key);
    PrefixIsWellFormed(scores, steps, k);
    OtherKeysUnchanged(step.env, scores, totals, step.score, key);
    assert plays + [] == plays;
    if Counts(step, key) {
      PlaysAreStored(scores, before, key);
      PlaysHaveDistinctIds(scores, before, key);
      UpdateKeepsBestPlayIff(step.env, scores, totals, plays, step.score);
    }
  }

  lemma UpdateKeepsBestPlayIff(
      env: Env, scores: map<int, Score>, totals: set<TotalRow>, plays: seq<Score>, s: Score)
    requires PicksMember(env.tie) && Indexes(RowsOf(totals, KeyOf(s)), plays) && DistinctBy(plays, SCORE_ID)
    requires s.passed && HasLeaderboard(env, s)
    requires HoldsBestPlay(RowsOf(totals, KeyOf(s)), plays)
    requires forall i :: 0 <= i < |plays| ==> plays[i].id in scores && scores[plays[i].id] == plays[i]
    requires NeverShowsLess(env.settings.scoringMode, plays + [s])
    ensures HoldsBestPlay(RowsOf(TotalsAfter(env, scores, totals, s), KeyOf(s)), plays + [s]) <==>
      SafeUpdate(env, scores, totals, s)
  {
    hide Indexes, StepSafe, HoldsBestPlay, NeverShowsLess, BestRow, RowsAfter, TotalsAfter, Improvement, DistinctBy;
    var rows := RowsOf(totals, KeyOf(s));
    var best, bestMod := BestRow(env.tie, rows), BestRow(env.tie, WithMods(rows, s.mods));
    AnswersOfQueries(env, totals, s);
    OtherKeysUnchanged(env, scores, totals, s, KeyOf(s));
    BestRowHasBestTotal(env.tie, rows, plays);
    IndexCopies(rows, plays);
    CopiesHaveDistinctIds(rows, plays);
    if best.Some? {
      var p := BestCopiesUnbeaten(rows, plays, best.value);
      ImprovementOver(env, scores, totals, s, plays, p);
      BetterShownHasBetterTotal(env.settings.scoringMode, plays, s, p);
    }
    BestPlayKeptIff(rows, plays, s, best, bestMod, Improvement(env, scores, totals, s));
  }

  /**
   * In a fixed mode in which a higher total never displays as less, whatever tied rows the queries returned: the row
   * of the best play is there all along the run exactly when the rows index the plays all along.
   */
  lemma {:induction false} BestPlayKeepsItsRowIff(
      scores: map<int, Score>, start: set<TotalRow>, steps: seq<Step>, key: Key, mode: ScoringMode)
    requires WellFormedRun(scores, steps) && RowsOf(start, key) == {}
    requires forall i :: 0 <= i < |steps| ==> steps[i].env.settings.scoringMode == mode
    requires NeverShowsLess(mode, Plays(steps, key))
    ensures (forall k :: 0 <= k <= |steps| ==> HoldsAt(scores, start, steps, k, key)) <==>
      (forall k :: 0 <= k <= |steps| ==> IndexedAt(scores, start, steps, k, key))
  {
    hide NeverShowsLess, WellFormedRun, IndexedAt, HoldsAt, Plays, RecordsShow, TotalsTellMods;
    NothingIndexedAt(scores, start, steps, key);
    NothingHeldAt(scores, start, steps, key);
    if forall k :: 0 <= k <= |steps| ==> HoldsAt(scores, start, steps, k, key) {
      for n := 0 to |steps|
        invariant forall k :: 0 <= k <= n ==> IndexedAt(scores, start, steps, k, key)
      {
        var next := n + 1;
        assert HoldsAt(scores, start, steps, n, key) && HoldsAt(scores, start, steps, next, key);
        ConditionsAt(mode, steps, key, n + 1);
        StepKeepsBestPlayIff(scores, start, steps, n, key);
      }
    }
    if forall k :: 0 <= k <= |steps| ==> IndexedAt(scores, start, steps, k, key) {
      for n := 0 to |steps|
        invariant forall k :: 0 <= k <= n ==> HoldsAt(scores, start, steps, k, key)
      {
        var next := n + 1;
        assert IndexedAt(scores, start, steps, n, key) && IndexedAt(scores, start, steps, next, key);
        ConditionsAt(mode, steps, key, n + 1);
        StepKeepsBestPlayIff(scores, start, steps, n, key);
      }
    }
  }

  lemma NothingHeldAt(scores: map<int, Score>, start: set<TotalRow>, steps: seq<Step>, key: Key)
    ensures HoldsAt(scores, start, steps, 0, key)
  {
    assert steps[..0] == [];
  }

  // ----- ranked maps -----

  predicate OnRankedMap(env: Env, beatmap: int) { env.policy(beatmap).statusRanked || env.settings.allBeatmapPp }

  /** The flags that `process_score` writes under the current policy. */
  ghost predicate Snapshotted(env: Env, s: Score) {
    exists matches: bool ::
      SnapshotEligibility(env.settings, env.policy(s.beatmap), matches) ==
      Eligibility(s.leaderboardEligible, s.ranked, s.rankedScoreEligible)
  }

  /** On a ranked map "ranked" and "has a leaderboard" are the same; elsewhere nothing is ranked. */
  lemma RankedMeansLeaderboard(env: Env, s: Score)
    requires env.settings.Valid() && Snapshotted(env, s)
    ensures IsRanked(env, s) <==> OnRankedMap(env, s.beatmap) && HasLeaderboard(env, s)
  {
  }

  /**
   * Flags can be withdrawn after submission. Without `ranked_score_eligible` a play leaves ranked score, grades, level
   * and combo alone; without `leaderboard_eligible` it leaves the rows alone, and without `ranked` all that is pp.
   */
  lemma WithdrawnFlagsCount(env: Env, db: Db, s: Score)
    requires StatKeyOf(s) in db.stats
    ensures var after := ProcessUserStep(env, db, s);
      && StatKeyOf(s) in after.stats
      && (var st, before := after.stats[StatKeyOf(s)], db.stats[StatKeyOf(s)];
          && (!s.passed || !s.rankedScoreEligible ==>
                st.rankedScore == before.rankedScore && st.grades == before.grades &&
                st.levelCurrent == before.levelCurrent && st.maximumCombo == before.maximumCombo)
          && (!s.passed || !s.ranked ==> st.pp == before.pp && st.hitAccuracy == before.hitAccuracy))
      && (!s.passed || !s.leaderboardEligible ==> after.totals == db.totals)
      && (!s.ranked ==> after.storedPp == db.storedPp)
      && (!s.passed || !s.ranked ==> after.bests == db.bests)
  {
    var paid := ScorePpStep(env, db, s);
    var credit := PlayCredit(s, env.totalLength(s.beatmap));
    PpStepKeeps(env, db, s);
    PpStepWithoutRanked(env, db, s);
    ScoreStatsWithoutFlag(env, db.scores, db.totals, db.stats[StatKeyOf(s)], s);
    StatsAfterColumns(env, paid, s, credit);
    RowsWithoutFlag(env, db.scores, db.totals, s);
    hide PlayCredit, MonthlyAfter, PlaysAfter, StatsAfter, TotalsAfter, ScorePpStep, ScoreStats;
  }

  lemma RowsWithoutFlag(env: Env, scores: map<int, Score>, totals: set<TotalRow>, s: Score)
    ensures !s.passed || !s.leaderboardEligible ==> TotalsAfter(env, scores, totals, s) == totals
  {
    hide RowsAfter, BestRow, Improvement;
  }

  lemma ScoreStatsWithoutFlag(env: Env, scores: map<int, Score>, totals: set<TotalRow>, st: Stats, s: Score)
    ensures var after := ScoreStats(env, scores, totals, st, s);
      && (!s.passed || !s.rankedScoreEligible ==>
            after.rankedScore == st.rankedScore && after.grades == st.grades &&
            after.levelCurrent == st.levelCurrent && after.maximumCombo == st.maximumCombo)
      && after.pp == st.pp && after.hitAccuracy == st.hitAccuracy
  {
    hide Improvement, GradesAfter, BestRow, DisplayScore, ScoreToLevel, HasLeaderboard;
  }

  lemma StatsAfterColumns(env: Env, db: Db, s: Score, credit: Option<int>)
    requires StatKeyOf(s) in db.stats
    ensures var st, scored :=
        StatsAfter(env, db, s, credit), ScoreStats(env, db.scores, db.totals, db.stats[StatKeyOf(s)], s);
      && st.rankedScore == scored.rankedScore && st.grades == scored.grades
      && st.levelCurrent == scored.levelCurrent && st.maximumCombo == scored.maximumCombo
      && (!s.passed || !s.ranked ==> st.pp == scored.pp && st.hitAccuracy == scored.hitAccuracy)
  {
    hide ScoreStats, HitTotal;
  }

  lemma PpStepWithoutRanked(env: Env, db: Db, s: Score)
    ensures !s.ranked ==> ScorePpStep(env, db, s) == db
    ensures !s.passed ==> ScorePpStep(env, db, s).bests == db.bests
  {
    hide AwardedPp, BestsAfter;
  }

  /** While policies stay as they were on submission, the flags then recorded decide exactly as the policies do. */
  lemma SnapshotDecides(env: Env, s: Score, matches: bool)
    requires env.settings.Valid()
    requires SnapshotEligibility(env.settings, env.policy(s.beatmap), matches) ==
      Eligibility(s.leaderboardEligible, s.ranked, s.rankedScoreEligible)
    ensures var policy := env.policy(s.beatmap);
      var board := policy.leaderboardEnabled || env.settings.allBeatmapLeaderboard;
      var ranked := env.settings.allBeatmapPp || (policy.statusRanked && board);
      && (HasPp(env, s) <==> matches && (policy.ppEnabled || env.settings.allBeatmapPp))
      && (HasLeaderboard(env, s) <==> matches && board)
      && (IsRanked(env, s) <==> matches && ranked)
  {
  }

  // ----- sums over beatmaps -----

  ghost predicate NoDuplicates(beatmaps: seq<int>) {
    forall i, j :: 0 <= i < j < |beatmaps| ==> beatmaps[i] != beatmaps[j]
  }

  function SumOver(beatmaps: seq<int>, f: int -> int): int {
    if beatmaps == [] then 0
    else
      var n := |beatmaps| - 1;
      SumOver(beatmaps[..n], f) + f(beatmaps[n])
  }

  lemma {:induction false} SumUnchanged(beatmaps: seq<int>, f: int -> int, g: int -> int)
    requires forall i :: 0 <= i < |beatmaps| ==> g(beatmaps[i]) == f(beatmaps[i])
    ensures SumOver(beatmaps, g) == SumOver(beatmaps, f)
  {
    if beatmaps != [] { SumUnchanged(beatmaps[..|beatmaps| - 1], f, g); }
  }

  lemma {:induction false} SumChangesAt(beatmaps: seq<int>, f: int -> int, g: int -> int, at: int)
    requires NoDuplicates(beatmaps) && at in beatmaps
    requires forall b :: b != at ==> g(b) == f(b)
    ensures SumOver(beatmaps, g) == SumOver(beatmaps, f) + g(at) - f(at)
  {
    var n := |beatmaps| - 1;
    if beatmaps[n] == at {
      SumUnchanged(beatmaps[..n], f, g);
    } else {
      var i :| 0 <= i < |beatmaps| && beatmaps[i] == at;
      assert beatmaps[..n][i] == at;
      SumChangesAt(beatmaps[..n], f, g, at);
    }
  }

  lemma {:induction false} SumAtLeast(beatmaps: seq<int>, f: int -> int, at: int)
    requires at in beatmaps && forall b :: f(b) >= 0
    ensures SumOver(beatmaps, f) >= f(at)
  {
    var n := |beatmaps| - 1;
    SumNonNegative(beatmaps[..n], f);
    if beatmaps[n] != at {
      var i :| 0 <= i < |beatmaps| && beatmaps[i] == at;
      assert beatmaps[..n][i] == at;
      SumAtLeast(beatmaps[..n], f, at);
    }
  }

  lemma {:induction false} SumNonNegative(beatmaps: seq<int>, f: int -> int)
    requires forall b :: f(b) >= 0
    ensures SumOver(beatmaps, f) >= 0
  {
    if beatmaps != [] { SumNonNegative(beatmaps[..|beatmaps| - 1], f); }
  }

  // ----- what the statistics should say -----

  /** The best play that counts towards ranked score on one beatmap. */
  function RankedBest(env: Env, list: seq<Score>, user: int, mode: GameMode, beatmap: int): Option<Score> {
    if OnRankedMap(env, beatmap) then BestPlay(PlaysOf(env, list, Key(user, beatmap, mode))) else None
  }

  /** The display score of the best play, and nothing where there is none. */
  function Worth(env: Env, best: Option<Score>): int {
    if best.None? then 0 else DisplayScore(env.settings.scoringMode, best.value)
  }

  function ScoreCredit(env: Env, list: seq<Score>, user: int, mode: GameMode): int -> int {
    b => Worth(env, RankedBest(env, list, user, mode, b))
  }

  function GradeCredit(env: Env, list: seq<Score>, user: int, mode: GameMode, rank: Rank): int -> int {
    b => Grade(RankedBest(env, list, user, mode, b), rank)
  }

  function Grade(best: Option<Score>, rank: Rank): int { if best.Some? && best.value.rank == rank then 1 else 0 }

  ghost predicate ScoreAgrees(
      env: Env, list: seq<Score>, user: int, mode: GameMode, beatmaps: seq<int>, rankedScore: int)
  {
    rankedScore == SumOver(beatmaps, ScoreCredit(env, list, user, mode))
  }

  ghost predicate GradesAgree(
      env: Env, list: seq<Score>, user: int, mode: GameMode, beatmaps: seq<int>, grades: map<Rank, int>)
  {
    && grades.Keys == NO_GRADES.Keys
    && forall g :: g in grades ==> grades[g] == SumOver(beatmaps, GradeCredit(env, list, user, mode, g))
  }

  /** A higher total never displays as less, display scores are not negative, and the flags are those of submission. */
  ghost predicate Fair(env: Env, list: seq<Score>) {
    && (forall key :: NeverShowsLess(env.settings.scoringMode, PlaysOf(env, list, key)))
    && (forall i :: 0 <= i < |list| ==> Snapshotted(env, list[i]))
    && (forall i :: 0 <= i < |list| && list[i].passed ==> DisplayScore(env.settings.scoringMode, list[i]) >= 0)
  }

  /** What grade counts need besides: no harmful ties, and plays that are worth something. */
  ghost predicate Gradable(env: Env, list: seq<Score>) {
    && (forall key :: TiesHarmless(env.settings.scoringMode, PlaysOf(env, list, key)))
    && (forall i :: 0 <= i < |list| && list[i].passed ==> DisplayScore(env.settings.scoringMode, list[i]) > 0)
  }

  lemma FairBefore(env: Env, list: seq<Score>)
    requires list != [] && Fair(env, list)
    ensures Fair(env, list[..|list| - 1])
  {
    hide NeverShowsLess, DisplayScore, Snapshotted, PlaysOf;
    var before := list[..|list| - 1];
    forall key ensures NeverShowsLess(env.settings.scoringMode, PlaysOf(env, before, key)) {
      assert NeverShowsLess(env.settings.scoringMode, PlaysOf(env, list, key));
      FollowsBefore(env, list, key);
    }
  }

  lemma GradableBefore(env: Env, list: seq<Score>)
    requires list != [] && Gradable(env, list)
    ensures Gradable(env, list[..|list| - 1])
  {
    hide TiesHarmless, DisplayScore, PlaysOf;
    var before := list[..|list| - 1];
    forall key ensures TiesHarmless(env.settings.scoringMode, PlaysOf(env, before, key)) {
      assert TiesHarmless(env.settings.scoringMode, PlaysOf(env, list, key));
      FollowsBefore(env, list, key);
    }
  }

  lemma FollowsBefore(env: Env, list: seq<Score>, key: Key)
    requires list != []
    ensures var mode, before := env.settings.scoringMode, PlaysOf(env, list[..|list| - 1], key);
      && (NeverShowsLess(mode, PlaysOf(env, list, key)) ==> NeverShowsLess(mode, before))
      && (TiesHarmless(mode, PlaysOf(env, list, key)) ==> TiesHarmless(mode, before))
  {
    hide DisplayScore;
    PlaysOfStep(env, list, key);
    var before, all := PlaysOf(env, list[..|list| - 1], key), PlaysOf(env, list, key);
    assert forall i :: 0 <= i < |before| ==> before[i] == all[i];
  }

  // ----- the best row along a run -----

  /** After any run, whatever tied rows the queries returned, the rows show the highest display score of the plays. */
  lemma RunShows(env: Env, start: Db, list: seq<Score>, key: Key)
    requires Runnable(start, list) && PicksMember(env.tie) && RowsOf(start.totals, key) == {}
    requires NeverShowsLess(env.settings.scoringMode, PlaysOf(env, list, key))
    ensures Shows(env.settings.scoringMode, RowsOf(LiveRun(env, start, list).totals, key), PlaysOf(env, list, key))
    ensures DistinctBy(PlaysOf(env, list, key), SCORE_ID)
  {
    hide Shows, NeverShowsLess, DistinctBy;
    StepsAreWellFormed(env, start, list);
    RowsShowTheHighest(start.scores, start.totals, Steps(env, list), key, env.settings.scoringMode);
    PlaysHaveDistinctIds(start.scores, Steps(env, list), key);
    LiveRunTables(env, start, list);
  }

  lemma LiveRunTotals(env: Env, start: Db, list: seq<Score>)
    requires list != [] && Runnable(start, list)
    ensures var before := LiveRun(env, start, list[..|list| - 1]);
      LiveRun(env, start, list).totals == TotalsAfter(env, before.scores, before.totals, list[|list| - 1])
  {
    hide StatsAfter, TotalsAfter, MonthlyAfter, PlaysAfter, PlayCredit, ScorePpStep;
    var n := |list| - 1;
    LiveRunTables(env, start, list[..n]);
    PpStepKeeps(env, LiveRun(env, start, list[..n]), list[n]);
  }

  /** The best row has the rank of the best play. */
  ghost predicate RankAgrees(tie: set<TotalRow> -> TotalRow, rows: set<TotalRow>, plays: seq<Score>) {
    && (BestRow(tie, rows).None? <==> plays == [])
    && (plays != [] ==> BestPlay(plays).Some? && BestRow(tie, rows).value.rank == BestPlay(plays).value.rank)
  }

  /**
   * After any run in either scoring mode, with ties broken by the lowest id and no harmful ties, the row that the
   * engine compares with has the rank of the best play, though it may have another total.
   */
  lemma {:induction false} BestRowHasBestRank(env: Env, start: Db, list: seq<Score>, key: Key)
    requires Runnable(start, list) && PicksLowestId(env.tie) && RowsOf(start.totals, key) == {}
    requires NeverShowsLess(env.settings.scoringMode, PlaysOf(env, list, key))
    requires TiesHarmless(env.settings.scoringMode, PlaysOf(env, list, key))
    ensures RankAgrees(env.tie, RowsOf(LiveRun(env, start, list).totals, key), PlaysOf(env, list, key))
  {
    hide NeverShowsLess, TiesHarmless, RankAgrees, ProcessUserStep, PicksLowestId, TotalsAfter, Shows, DistinctBy,
      Plays, RowsOf;
    LowestIdIsMember(env.tie);
    if list == [] {
      NoRanksAgree(env, start, key);
    } else {
      var n := |list| - 1;
      FollowsBefore(env, list, key);
      BestRowHasBestRank(env, start, list[..n], key);
      RunShows(env, start, list[..n], key);
      RunShows(env, start, list, key);
      LiveRunTables(env, start, list[..n]);
      LiveRunTotals(env, start, list);
      KeepsRank(env, LiveRun(env, start, list[..n]), list, key);
    }
  }

  lemma NoRanksAgree(env: Env, start: Db, key: Key)
    requires RowsOf(start.totals, key) == {}
    ensures RankAgrees(env.tie, RowsOf(start.totals, key), PlaysOf(env, [], key))
  {
  }

  lemma KeepsRank(env: Env, db: Db, list: seq<Score>, key: Key)
    requires list != [] && Runnable(db, list) && PicksLowestId(env.tie)
    requires NeverShowsLess(env.settings.scoringMode, PlaysOf(env, list, key))
    requires TiesHarmless(env.settings.scoringMode, PlaysOf(env, list, key))
    requires DistinctBy(PlaysOf(env, list, key), SCORE_ID)
    requires Shows(env.settings.scoringMode, RowsOf(db.totals, key), PlaysOf(env, list[..|list| - 1], key))
    requires RankAgrees(env.tie, RowsOf(db.totals, key), PlaysOf(env, list[..|list| - 1], key))
    ensures RankAgrees(
      env.tie, RowsOf(TotalsAfter(env, db.scores, db.totals, list[|list| - 1]), key), PlaysOf(env, list, key))
  {
    hide NeverShowsLess, TiesHarmless, RankAgrees, Shows, DistinctBy, RowsAfter, TotalsAfter, PicksLowestId, Plays,
      BestRow, Improvement;
    var n := |list| - 1;
    var s, rows, plays := list[n], RowsOf(db.totals, key), PlaysOf(env, list[..n], key);
    LowestIdIsMember(env.tie);
    PlaysOfStep(env, list, key);
    OtherKeysUnchanged(env, db.scores, db.totals, s, key);
    assert plays + [] == plays;
    if Counts(Step(env, s), key) {
      PlaysAreInTable(env, db, list[..n], key);
      var mode, difference := env.settings.scoringMode, Improvement(env, db.scores, db.totals, s);
      ShownRowsAreFor(mode, rows, plays, s);
      if BestRow(env.tie, rows).Some? {
        AnswersOfQueries(env, db.totals, s);
        ConditionsOfPrefix(mode, plays, [s]);
        var p := HighestRowShowsMost(mode, rows, plays, BestRow(env.tie, rows).value);
        ImprovementOver(env, db.scores, db.totals, s, plays, p);
        BetterShownHasBetterTotal(mode, plays, s, p);
        NextBestRow(env.tie, rows, s, BestRow(env.tie, rows), BestRow(env.tie, WithMods(rows, s.mods)), difference);
        SuccessorHasBestRank(env.tie, mode, rows, plays, s, p, RowsOf(TotalsAfter(env, db.scores, db.totals, s), key));
      } else {
        NextBestRow(env.tie, rows, s, BestRow(env.tie, rows), BestRow(env.tie, WithMods(rows, s.mods)), difference);
        FirstHasBestRank(env.tie, rows, plays, s, RowsOf(TotalsAfter(env, db.scores, db.totals, s), key));
      }
    }
  }

  lemma ShownRowsAreFor(mode: ScoringMode, rows: set<TotalRow>, plays: seq<Score>, s: Score)
    requires Shows(mode, rows, plays) && DistinctBy(plays + [s], SCORE_ID)
    requires forall r :: r in rows ==> r.key == KeyOf(s)
    ensures RowsFor(rows, s)
  {
    hide DisplayScore, ShownBy;
    var all := plays + [s];
    assert forall i :: 0 <= i < |plays| ==> all[i] == plays[i];
    assert all[|plays|] == s;
    CopiesHaveDistinctIds(rows, plays);
    forall r | r in rows ensures r.scoreId != s.id { assert Copies(r, plays); }
  }

  lemma FirstHasBestRank(
      tie: set<TotalRow> -> TotalRow, rows: set<TotalRow>, plays: seq<Score>, s: Score, after: set<TotalRow>)
    requires RankAgrees(tie, rows, plays) && BestRow(tie, rows).None? && BestRow(tie, after) == Some(TotalRowFor(s))
    ensures RankAgrees(tie, after, plays + [s])
  {
    hide BestRow;
    BestPlayAfter(plays, s);
  }

  /** Whoever the next best row belongs to, its rank is that of the best play. */
  lemma SuccessorHasBestRank(
      tie: set<TotalRow> -> TotalRow, mode: ScoringMode, rows: set<TotalRow>, plays: seq<Score>, s: Score, p: nat,
      after: set<TotalRow>)
    requires RankAgrees(tie, rows, plays) && ShowsMost(mode, plays, p)
    requires NeverShowsLess(mode, plays + [s]) && TiesHarmless(mode, plays + [s])
    requires BestRow(tie, rows) == Some(TotalRowFor(plays[p]))
    requires BestRow(tie, after) ==
      if Succeeds(rows, BestRow(tie, rows), s, DisplayScore(mode, s) - DisplayScore(mode, plays[p]))
      then Some(TotalRowFor(s)) else BestRow(tie, rows)
    ensures RankAgrees(tie, after, plays + [s])
  {
    hide BestRow, DisplayScore, BestPlay;
    var all := plays + [s];
    assert all[p] == plays[p] && all[|plays|] == s;
    BestPlayAfter(plays, s);
    var g := BestPlayIsFirstMaximum(plays);
    assert all[g] == plays[g] && plays[p].totalScore <= plays[g].totalScore;
  }

  lemma PlaysAreInTable(env: Env, db: Db, list: seq<Score>, key: Key)
    requires Runnable(db, list)
    ensures forall i :: 0 <= i < |PlaysOf(env, list, key)| ==>
      PlaysOf(env, list, key)[i].id in db.scores &&
      db.scores[PlaysOf(env, list, key)[i].id] == PlaysOf(env, list, key)[i]
  {
    hide Plays;
    PlaysAreSteps(Steps(env, list), key);
    forall i | 0 <= i < |PlaysOf(env, list, key)|
      ensures PlaysOf(env, list, key)[i].id in db.scores
      ensures db.scores[PlaysOf(env, list, key)[i].id] == PlaysOf(env, list, key)[i]
    {
      assert Processed(PlaysOf(env, list, key)[i], Steps(env, list));
      var j :| 0 <= j < |Steps(env, list)| && Steps(env, list)[j].score == PlaysOf(env, list, key)[i];
      assert list[j] == PlaysOf(env, list, key)[i];
    }
  }

  /**
   * In either scoring mode, whichever tied row the database returned, the engine's difference is the distance to the
   * best play's display score, which no play exceeds; if it is positive, the best total is beaten too.
   */
  lemma ImprovementOverBest(env: Env, db: Db, list: seq<Score>, key: Key)
    requires list != [] && Runnable(db, list) && PicksMember(env.tie)
    requires Counts(Step(env, list[|list| - 1]), key) && PlaysOf(env, list[..|list| - 1], key) != []
    requires NeverShowsLess(env.settings.scoringMode, PlaysOf(env, list, key))
    requires Shows(env.settings.scoringMode, RowsOf(db.totals, key), PlaysOf(env, list[..|list| - 1], key))
    ensures var s, before := list[|list| - 1], PlaysOf(env, list[..|list| - 1], key);
      var mode, difference := env.settings.scoringMode, Improvement(env, db.scores, db.totals, s);
      && BestPlay(before).Some?
      && difference == DisplayScore(mode, s) - DisplayScore(mode, BestPlay(before).value)
      && (forall i :: 0 <= i < |before| ==> DisplayScore(mode, before[i]) <= DisplayScore(mode, BestPlay(before).value))
      && (difference > 0 ==> s.totalScore > BestPlay(before).value.totalScore)
      && (s.totalScore > BestPlay(before).value.totalScore ==> difference >= 0)
  {
    hide Shows, DisplayScore, Plays, BestRow, NeverShowsLess, Improvement;
    var n := |list| - 1;
    var mode, s := env.settings.scoringMode, list[n];
    var rows, before := RowsOf(db.totals, key), PlaysOf(env, list[..n], key);
    PlaysOfStep(env, list, key);
    ConditionsOfPrefix(mode, before, [s]);
    PlaysAreInTable(env, db, list[..n], key);
    AnswersOfQueries(env, db.totals, s);
    ShownIsNonEmpty(mode, rows, before);
    var p := HighestRowShowsMost(mode, rows, before, BestRow(env.tie, rows).value);
    ImprovementOver(env, db.scores, db.totals, s, before, p);
    var i := BestPlayShowsMost(mode, before);
    BetterShownHasBetterTotal(mode, before, s, i);
  }

  lemma ShownIsNonEmpty(mode: ScoringMode, rows: set<TotalRow>, plays: seq<Score>)
    requires Shows(mode, rows, plays)
    ensures rows == {} <==> plays == []
  {}

  // ----- one processed score -----

  /** Plays, and so the best of them, change only on the score's own beatmap. */
  lemma OtherBeatmapsUnchanged(env: Env, list: seq<Score>, user: int, mode: GameMode, beatmap: int)
    requires list != [] && KeyOf(list[|list| - 1]) != Key(user, beatmap, mode)
    ensures RankedBest(env, list, user, mode, beatmap) == RankedBest(env, list[..|list| - 1], user, mode, beatmap)
  {
    PlaysOfStep(env, list, Key(user, beatmap, mode));
    var before := PlaysOf(env, list[..|list| - 1], Key(user, beatmap, mode));
    assert before + [] == before;
  }

  /**
   * The engine counts an improvement, by the right amount, exactly when the best play's worth rises. Otherwise the
   * best play stays, or the play is the first without worth, or it beats the best total and displays the same.
   */
  lemma RankedBestAfter(env: Env, db: Db, list: seq<Score>)
    requires list != [] && Runnable(db, list) && env.settings.Valid() && PicksMember(env.tie) && Fair(env, list)
    requires Shows(
      env.settings.scoringMode, RowsOf(db.totals, KeyOf(list[|list| - 1])),
      PlaysOf(env, list[..|list| - 1], KeyOf(list[|list| - 1])))
    ensures var s := list[|list| - 1];
      var before := RankedBest(env, list[..|list| - 1], s.user, s.mode, s.beatmap);
      var after := RankedBest(env, list, s.user, s.mode, s.beatmap);
      var difference := Improvement(env, db.scores, db.totals, s);
      if difference > 0 && s.passed && IsRanked(env, s) then
        after == Some(s) && difference == Worth(env, after) - Worth(env, before)
      else
        && Worth(env, after) == Worth(env, before)
        && (after == before ||
            (after == Some(s) && Counts(Step(env, s), KeyOf(s)) &&
             (before.Some? ==> s.totalScore > before.value.totalScore)))
  {
    hide Shows, DisplayScore, Plays, Snapshotted, BestPlay, NeverShowsLess, IsRanked, Runnable, RowsOf;
    var n := |list| - 1;
    var s := list[n];
    RankedMeansLeaderboard(env, s);
    PlaysOfStep(env, list, KeyOf(s));
    var before := PlaysOf(env, list[..n], KeyOf(s));
    assert before + [] == before;
    if Counts(Step(env, s), KeyOf(s)) {
      BestPlayAfter(before, s);
      ShownIsNonEmpty(env.settings.scoringMode, RowsOf(db.totals, KeyOf(s)), before);
      if before != [] { ImprovementOverBest(env, db, list, KeyOf(s)); } else { BestPlayAfter([], s); }
    }
  }

  /** The rank the engine takes back is that of the best play so far. */
  lemma RankTakenBack(env: Env, db: Db, list: seq<Score>)
    requires list != [] && env.settings.Valid()
    requires RankAgrees(
      env.tie, RowsOf(db.totals, KeyOf(list[|list| - 1])), PlaysOf(env, list[..|list| - 1], KeyOf(list[|list| - 1])))
    requires IsRanked(env, list[|list| - 1]) && Snapshotted(env, list[|list| - 1])
    ensures var s := list[|list| - 1];
      var before := RankedBest(env, list[..|list| - 1], s.user, s.mode, s.beatmap);
      var row := BestRow(env.tie, RowsOf(db.totals, KeyOf(s)));
      (row.None? <==> before.None?) && (row.Some? ==> row.value.rank == before.value.rank)
  {
    hide Plays, BestRow, Snapshotted, IsRanked;
    var s := list[|list| - 1];
    RankedMeansLeaderboard(env, s);
    BestPlayAfter(PlaysOf(env, list[..|list| - 1], KeyOf(s)), s);
  }

  lemma AdjustedGrades(grades: map<Rank, int>, best: Option<TotalRow>, s: Score)
    requires grades.Keys == NO_GRADES.Keys
    requires forall g :: g in grades ==> grades[g] >= RowGrade(best, g)
    ensures GradesAfter(grades, best, s).Keys == NO_GRADES.Keys
    ensures forall g :: g in grades ==>
      GradesAfter(grades, best, s)[g] == grades[g] + Grade(Some(s), g) - RowGrade(best, g)
  {
  }

  function RowGrade(row: Option<TotalRow>, rank: Rank): int { if row.Some? && row.value.rank == rank then 1 else 0 }

  lemma OtherCreditsUnchanged(env: Env, list: seq<Score>, user: int, mode: GameMode)
    requires list != [] && StatKeyOf(list[|list| - 1]) == StatKey(user, mode)
    ensures forall b :: b != list[|list| - 1].beatmap ==>
      RankedBest(env, list, user, mode, b) == RankedBest(env, list[..|list| - 1], user, mode, b)
  {
    hide RankedBest;
    forall b | b != list[|list| - 1].beatmap
      ensures RankedBest(env, list, user, mode, b) == RankedBest(env, list[..|list| - 1], user, mode, b)
    {
      OtherBeatmapsUnchanged(env, list, user, mode, b);
    }
  }

  lemma ScoreSumAfter(env: Env, list: seq<Score>, user: int, mode: GameMode, beatmaps: seq<int>)
    requires list != [] && StatKeyOf(list[|list| - 1]) == StatKey(user, mode)
    requires NoDuplicates(beatmaps) && list[|list| - 1].beatmap in beatmaps
    ensures var f, f' := ScoreCredit(env, list[..|list| - 1], user, mode), ScoreCredit(env, list, user, mode);
      var b := list[|list| - 1].beatmap;
      SumOver(beatmaps, f') == SumOver(beatmaps, f) + f'(b) - f(b)
  {
    hide RankedBest, DisplayScore;
    OtherCreditsUnchanged(env, list, user, mode);
    SumChangesAt(beatmaps, ScoreCredit(env, list[..|list| - 1], user, mode), ScoreCredit(env, list, user, mode),
                 list[|list| - 1].beatmap);
  }

  lemma GradeSumAfter(env: Env, list: seq<Score>, user: int, mode: GameMode, beatmaps: seq<int>, g: Rank)
    requires list != [] && StatKeyOf(list[|list| - 1]) == StatKey(user, mode)
    requires NoDuplicates(beatmaps) && list[|list| - 1].beatmap in beatmaps
    ensures var before, f' := GradeCredit(env, list[..|list| - 1], user, mode, g),
        GradeCredit(env, list, user, mode, g);
      var best := RankedBest(env, list[..|list| - 1], user, mode, list[|list| - 1].beatmap);
      var best' := RankedBest(env, list, user, mode, list[|list| - 1].beatmap);
      && SumOver(beatmaps, f') == SumOver(beatmaps, before) + Grade(best', g) - Grade(best, g)
      && SumOver(beatmaps, before) >= Grade(best, g)
  {
    hide RankedBest;
    OtherCreditsUnchanged(env, list, user, mode);
    var f := GradeCredit(env, list[..|list| - 1], user, mode, g);
    SumChangesAt(beatmaps, f, GradeCredit(env, list, user, mode, g), list[|list| - 1].beatmap);
    SumAtLeast(beatmaps, f, list[|list| - 1].beatmap);
  }

  /** Ranked score moves by the engine's difference exactly when the best play's worth rises. */
  lemma ScoreStep(env: Env, db: Db, list: seq<Score>, user: int, mode: GameMode, beatmaps: seq<int>, st: Stats)
    requires list != [] && Runnable(db, list) && env.settings.Valid() && PicksMember(env.tie) && Fair(env, list)
    requires StatKeyOf(list[|list| - 1]) == StatKey(user, mode) && list[|list| - 1].beatmap in beatmaps
    requires NoDuplicates(beatmaps)
    requires Shows(
      env.settings.scoringMode, RowsOf(db.totals, KeyOf(list[|list| - 1])),
      PlaysOf(env, list[..|list| - 1], KeyOf(list[|list| - 1])))
    requires ScoreAgrees(env, list[..|list| - 1], user, mode, beatmaps, st.rankedScore)
    ensures ScoreAgrees(
      env, list, user, mode, beatmaps, ScoreStats(env, db.scores, db.totals, st, list[|list| - 1]).rankedScore)
  {
    hide Fair, Shows, Improvement, DisplayScore, RankedBest, IsRanked, BestRow, SumOver, GradesAfter, RowsOf, Runnable,
      NoDuplicates, ScoreToLevel;
    RankedBestAfter(env, db, list);
    ScoreSumAfter(env, list, user, mode, beatmaps);
  }

  /** Grade counts move by one exchange exactly when the best play's worth rises. */
  lemma GradeStep(env: Env, db: Db, list: seq<Score>, user: int, mode: GameMode, beatmaps: seq<int>, st: Stats)
    requires list != [] && Runnable(db, list) && env.settings.Valid() && PicksMember(env.tie)
    requires Fair(env, list) && Gradable(env, list)
    requires StatKeyOf(list[|list| - 1]) == StatKey(user, mode) && list[|list| - 1].beatmap in beatmaps
    requires NoDuplicates(beatmaps)
    requires Shows(
      env.settings.scoringMode, RowsOf(db.totals, KeyOf(list[|list| - 1])),
      PlaysOf(env, list[..|list| - 1], KeyOf(list[|list| - 1])))
    requires RankAgrees(
      env.tie, RowsOf(db.totals, KeyOf(list[|list| - 1])), PlaysOf(env, list[..|list| - 1], KeyOf(list[|list| - 1])))
    requires GradesAgree(env, list[..|list| - 1], user, mode, beatmaps, st.grades)
    ensures GradesAgree(
      env, list, user, mode, beatmaps, ScoreStats(env, db.scores, db.totals, st, list[|list| - 1]).grades)
  {
    hide Fair, Gradable, Shows, RankAgrees, Improvement, DisplayScore, RankedBest, IsRanked, BestRow, SumOver,
      GradesAfter, RowsOf, Runnable, NoDuplicates, ScoreToLevel, GradeCredit, Grade, RowGrade, Worth;
    var s, before := list[|list| - 1], RankedBest(env, list[..|list| - 1], user, mode, list[|list| - 1].beatmap);
    GradedBestAfter(env, db, list);
    GradeSums(env, list, user, mode, beatmaps, st.grades);
    if Improvement(env, db.scores, db.totals, s) > 0 && s.passed && IsRanked(env, s) {
      LastIsSnapshotted(env, list);
      RankTakenBack(env, db, list);
      SameGrade(BestRow(env.tie, RowsOf(db.totals, KeyOf(s))), before);
      AdjustedGrades(st.grades, BestRow(env.tie, RowsOf(db.totals, KeyOf(s))), s);
    }
  }

  /** When every passed play is worth something, the best play's grade changes only when the engine improves. */
  lemma GradedBestAfter(env: Env, db: Db, list: seq<Score>)
    requires list != [] && Runnable(db, list) && env.settings.Valid() && PicksMember(env.tie)
    requires Fair(env, list) && Gradable(env, list)
    requires Shows(
      env.settings.scoringMode, RowsOf(db.totals, KeyOf(list[|list| - 1])),
      PlaysOf(env, list[..|list| - 1], KeyOf(list[|list| - 1])))
    ensures var s := list[|list| - 1];
      var before := RankedBest(env, list[..|list| - 1], s.user, s.mode, s.beatmap);
      var after := RankedBest(env, list, s.user, s.mode, s.beatmap);
      if Improvement(env, db.scores, db.totals, s) > 0 && s.passed && IsRanked(env, s) then after == Some(s)
      else forall g :: Grade(after, g) == Grade(before, g)
  {
    hide Fair, Gradable, Shows, Improvement, DisplayScore, IsRanked, RowsOf, Runnable, PicksMember, Plays, BestPlay;
    var s := list[|list| - 1];
    RankedBestAfter(env, db, list);
    if s.passed { PositiveWorth(env, list); }
    var plays := PlaysOf(env, list[..|list| - 1], KeyOf(s));
    if plays != [] && Counts(Step(env, s), KeyOf(s)) {
      PlaysOfStep(env, list, KeyOf(s));
      var i := BestPlayIsFirstMaximum(plays);
      HarmlessLast(env, list, i);
    } else if plays == [] {
      BestPlayAfter(plays, s);
    }
  }

  /** A last play that beats an earlier total and displays the same has the same rank. */
  lemma HarmlessLast(env: Env, list: seq<Score>, i: nat)
    requires list != [] && Gradable(env, list) && Counts(Step(env, list[|list| - 1]), KeyOf(list[|list| - 1]))
    requires i < |PlaysOf(env, list[..|list| - 1], KeyOf(list[|list| - 1]))|
    ensures var s := list[|list| - 1]; var best := PlaysOf(env, list[..|list| - 1], KeyOf(s))[i];
      s.totalScore > best.totalScore && Worth(env, Some(s)) == Worth(env, Some(best)) ==> s.rank == best.rank
  {
    hide DisplayScore, Plays;
    var s := list[|list| - 1];
    PlaysOfStep(env, list, KeyOf(s));
    var before, all := PlaysOf(env, list[..|list| - 1], KeyOf(s)), PlaysOf(env, list, KeyOf(s));
    assert all[i] == before[i] && all[|before|] == s;
    assert TiesHarmless(env.settings.scoringMode, all);
  }

  lemma LastIsSnapshotted(env: Env, list: seq<Score>)
    requires list != [] && Fair(env, list)
    ensures Snapshotted(env, list[|list| - 1])
  {}

  lemma PositiveWorth(env: Env, list: seq<Score>)
    requires list != [] && Gradable(env, list) && list[|list| - 1].passed
    ensures Worth(env, Some(list[|list| - 1])) > 0
  {}

  lemma SameGrade(row: Option<TotalRow>, best: Option<Score>)
    requires (row.None? <==> best.None?) && (row.Some? ==> row.value.rank == best.value.rank)
    ensures forall g :: RowGrade(row, g) == Grade(best, g)
  {}

  /** What the grade sums of the longer run are, in terms of the counters before the play. */
  lemma GradeSums(env: Env, list: seq<Score>, user: int, mode: GameMode, beatmaps: seq<int>, grades: map<Rank, int>)
    requires list != [] && StatKeyOf(list[|list| - 1]) == StatKey(user, mode)
    requires NoDuplicates(beatmaps) && list[|list| - 1].beatmap in beatmaps
    requires GradesAgree(env, list[..|list| - 1], user, mode, beatmaps, grades)
    ensures var best := RankedBest(env, list[..|list| - 1], user, mode, list[|list| - 1].beatmap);
      var best' := RankedBest(env, list, user, mode, list[|list| - 1].beatmap);
      forall g :: g in grades ==>
        && grades[g] >= Grade(best, g)
        && SumOver(beatmaps, GradeCredit(env, list, user, mode, g)) == grades[g] + Grade(best', g) - Grade(best, g)
  {
    hide RankedBest, GradeCredit, Grade, SumOver, NoDuplicates;
    forall g | g in grades
      ensures SumOver(beatmaps, GradeCredit(env, list, user, mode, g)) == grades[g] +
        Grade(RankedBest(env, list, user, mode, list[|list| - 1].beatmap), g) -
        Grade(RankedBest(env, list[..|list| - 1], user, mode, list[|list| - 1].beatmap), g)
      ensures grades[g] >= Grade(RankedBest(env, list[..|list| - 1], user, mode, list[|list| - 1].beatmap), g)
    {
      GradeSumAfter(env, list, user, mode, beatmaps, g);
    }
  }

  /** A fresh user: no rows, and the statistics of a new record. */
  ghost predicate FreshUser(start: Db, user: int, mode: GameMode) {
    && StatKey(user, mode) in start.stats && start.stats[StatKey(user, mode)] == FRESH_STATS
    && forall key: Key :: key.user == user && key.mode == mode ==> RowsOf(start.totals, key) == {}
  }

  /**
   * After any run of a fresh user in either scoring mode, whatever tied rows the queries returned and in whatever
   * order ties came, ranked score is the sum, over ranked beatmaps, of the best play's display score.
   */
  lemma {:induction false} RankedScoreTelescopes(
      env: Env, start: Db, list: seq<Score>, user: int, mode: GameMode, beatmaps: seq<int>)
    requires Runnable(start, list) && env.settings.Valid() && PicksMember(env.tie) && Fair(env, list)
    requires FreshUser(start, user, mode) && NoDuplicates(beatmaps)
    requires forall i :: 0 <= i < |list| && StatKeyOf(list[i]) == StatKey(user, mode) ==> list[i].beatmap in beatmaps
    ensures StatKey(user, mode) in LiveRun(env, start, list).stats
    ensures ScoreAgrees(
      env, list, user, mode, beatmaps, LiveRun(env, start, list).stats[StatKey(user, mode)].rankedScore)
  {
    hide ScoreAgrees, Fair, ProcessUserStep, ScoreStats, RowsOf, PicksMember, Shows, DistinctBy, NeverShowsLess;
    LiveRunTables(env, start, list);
    if list == [] {
      NothingAgrees(env, user, mode, beatmaps);
    } else {
      var n := |list| - 1;
      var s, before := list[n], LiveRun(env, start, list[..n]);
      FairBefore(env, list);
      LiveRunTables(env, start, list[..n]);
      RankedScoreTelescopes(env, start, list[..n], user, mode, beatmaps);
      var st := before.stats[StatKey(user, mode)];
      if StatKeyOf(s) == StatKey(user, mode) {
        FairFollows(env, list[..n], KeyOf(s));
        RunShows(env, start, list[..n], KeyOf(s));
        ScoreStep(env, before, list, user, mode, beatmaps, st);
        OnlyScoreStatsMatter(env, before, s);
      } else {
        AgreesElsewhere(env, list, user, mode, beatmaps, st);
        OtherStatsUnchanged(env, before, s, StatKey(user, mode));
      }
    }
  }

  lemma FairFollows(env: Env, list: seq<Score>, key: Key)
    requires Fair(env, list)
    ensures NeverShowsLess(env.settings.scoringMode, PlaysOf(env, list, key))
  {}

  lemma GradableFollows(env: Env, list: seq<Score>, key: Key)
    requires Gradable(env, list)
    ensures TiesHarmless(env.settings.scoringMode, PlaysOf(env, list, key))
  {}

  /** What a run is worth on one beatmap is the largest display score among its plays there. */
  lemma WorthIsTheLargest(env: Env, list: seq<Score>, user: int, mode: GameMode, beatmap: int)
    requires Fair(env, list)
    ensures var plays := PlaysOf(env, list, Key(user, beatmap, mode));
      var worth := Worth(env, RankedBest(env, list, user, mode, beatmap));
      if OnRankedMap(env, beatmap) && plays != []
      then
        && (exists i :: 0 <= i < |plays| && worth == DisplayScore(env.settings.scoringMode, plays[i]))
        && (forall i :: 0 <= i < |plays| ==> DisplayScore(env.settings.scoringMode, plays[i]) <= worth)
      else worth == 0
  {
    hide DisplayScore, Plays;
    var plays := PlaysOf(env, list, Key(user, beatmap, mode));
    if OnRankedMap(env, beatmap) && plays != [] {
      var i := BestPlayShowsMost(env.settings.scoringMode, plays);
      assert RankedBest(env, list, user, mode, beatmap) == Some(plays[i]);
    }
  }

  /** Totals are not negative, each beatmap has one object count in a mode, and the flags are those of submission. */
  ghost predicate SteadyRun(env: Env, list: seq<Score>) {
    && (forall i :: 0 <= i < |list| ==> list[i].totalScore >= 0 && Snapshotted(env, list[i]))
    && (forall i, j :: 0 <= i < |list| && 0 <= j < |list| && KeyOf(list[i]) == KeyOf(list[j]) ==>
          list[i].basicTotal == list[j].basicTotal)
  }

  /** Such runs are fair in both scoring modes, so `RankedScoreTelescopes` needs nothing else of them. */
  lemma SteadyRunIsFair(env: Env, list: seq<Score>)
    requires SteadyRun(env, list)
    ensures Fair(env, list)
  {
    hide NeverShowsLess, DisplayScore, Plays, Snapshotted;
    forall key ensures NeverShowsLess(env.settings.scoringMode, PlaysOf(env, list, key)) {
      PlaysAreSteady(env, list, key);
      SteadyPlaysNeverShowLess(env.settings.scoringMode, PlaysOf(env, list, key));
    }
    forall i | 0 <= i < |list| && list[i].passed ensures DisplayScore(env.settings.scoringMode, list[i]) >= 0 {
      SteadyPlaysNeverShowLess(env.settings.scoringMode, [list[i]]);
      assert [list[i]][0] == list[i];
    }
  }

  lemma PlaysAreSteady(env: Env, list: seq<Score>, key: Key)
    requires SteadyRun(env, list)
    ensures Steady(PlaysOf(env, list, key))
  {
    hide Plays, Snapshotted;
    PlaysAreSteps(Steps(env, list), key);
    var plays := PlaysOf(env, list, key);
    forall i | 0 <= i < |plays|
      ensures exists k :: 0 <= k < |list| && list[k] == plays[i] && KeyOf(list[k]) == key
    {
      assert Processed(plays[i], Steps(env, list));
      var k :| 0 <= k < |Steps(env, list)| && Steps(env, list)[k].score == plays[i];
      assert list[k] == plays[i];
    }
  }

  /** Ranked score in both scoring modes, from what submissions guarantee. */
  lemma SteadyRankedScore(env: Env, start: Db, list: seq<Score>, user: int, mode: GameMode, beatmaps: seq<int>)
    requires Runnable(start, list) && env.settings.Valid() && PicksMember(env.tie) && SteadyRun(env, list)
    requires FreshUser(start, user, mode) && NoDuplicates(beatmaps)
    requires forall i :: 0 <= i < |list| && StatKeyOf(list[i]) == StatKey(user, mode) ==> list[i].beatmap in beatmaps
    ensures StatKey(user, mode) in LiveRun(env, start, list).stats
    ensures ScoreAgrees(
      env, list, user, mode, beatmaps, LiveRun(env, start, list).stats[StatKey(user, mode)].rankedScore)
  {
    hide ScoreAgrees, Fair, SteadyRun;
    SteadyRunIsFair(env, list);
    RankedScoreTelescopes(env, start, list, user, mode, beatmaps);
  }

  /**
   * In either scoring mode, with ties broken by the lowest id and no harmful ties, each grade count is the number of
   * ranked beatmaps whose best play has that grade.
   */
  lemma {:induction false} GradeCountsTelescope(
      env: Env, start: Db, list: seq<Score>, user: int, mode: GameMode, beatmaps: seq<int>)
    requires Runnable(start, list) && env.settings.Valid() && PicksLowestId(env.tie)
    requires Fair(env, list) && Gradable(env, list) && FreshUser(start, user, mode) && NoDuplicates(beatmaps)
    requires forall i :: 0 <= i < |list| && StatKeyOf(list[i]) == StatKey(user, mode) ==> list[i].beatmap in beatmaps
    ensures StatKey(user, mode) in LiveRun(env, start, list).stats
    ensures GradesAgree(env, list, user, mode, beatmaps, LiveRun(env, start, list).stats[StatKey(user, mode)].grades)
  {
    hide GradesAgree, Fair, Gradable, Shows, RankAgrees, ProcessUserStep, ScoreStats, RowsOf, PicksLowestId,
      DistinctBy, NeverShowsLess, TiesHarmless;
    LiveRunTables(env, start, list);
    LowestIdIsMember(env.tie);
    if list == [] {
      NothingAgrees(env, user, mode, beatmaps);
    } else {
      var n := |list| - 1;
      var s, before := list[n], LiveRun(env, start, list[..n]);
      FairBefore(env, list);
      GradableBefore(env, list);
      LiveRunTables(env, start, list[..n]);
      GradeCountsTelescope(env, start, list[..n], user, mode, beatmaps);
      var st := before.stats[StatKey(user, mode)];
      if StatKeyOf(s) == StatKey(user, mode) {
        FairFollows(env, list[..n], KeyOf(s));
        GradableFollows(env, list[..n], KeyOf(s));
        RunShows(env, start, list[..n], KeyOf(s));
        BestRowHasBestRank(env, start, list[..n], KeyOf(s));
        GradeStep(env, before, list, user, mode, beatmaps, st);
        OnlyScoreStatsMatter(env, before, s);
      } else {
        AgreesElsewhere(env, list, user, mode, beatmaps, st);
        OtherStatsUnchanged(env, before, s, StatKey(user, mode));
      }
    }
  }

  lemma {:induction false} NothingAgrees(env: Env, user: int, mode: GameMode, beatmaps: seq<int>)
    ensures ScoreAgrees(env, [], user, mode, beatmaps, 0) && GradesAgree(env, [], user, mode, beatmaps, NO_GRADES)
  {
    forall b ensures RankedBest(env, [], user, mode, b) == None { assert PlaysOf(env, [], Key(user, b, mode)) == []; }
    SumOfZeros(beatmaps, ScoreCredit(env, [], user, mode));
    forall g: Rank ensures SumOver(beatmaps, GradeCredit(env, [], user, mode, g)) == 0 {
      SumOfZeros(beatmaps, GradeCredit(env, [], user, mode, g));
    }
  }

  lemma {:induction false} SumOfZeros(beatmaps: seq<int>, f: int -> int)
    requires forall b :: f(b) == 0
    ensures SumOver(beatmaps, f) == 0
  {
    if beatmaps != [] { SumOfZeros(beatmaps[..|beatmaps| - 1], f); }
  }

  lemma OtherStatsUnchanged(env: Env, db: Db, s: Score, key: StatKey)
    requires key != StatKeyOf(s) && key in db.stats
    ensures key in ProcessUserStep(env, db, s).stats && ProcessUserStep(env, db, s).stats[key] == db.stats[key]
  {
    hide StatsAfter, ScorePpStep, TotalsAfter, MonthlyAfter, PlaysAfter, PlayCredit;
    PpStepKeeps(env, db, s);
  }

  lemma AgreesElsewhere(env: Env, list: seq<Score>, user: int, mode: GameMode, beatmaps: seq<int>, st: Stats)
    requires list != [] && StatKeyOf(list[|list| - 1]) != StatKey(user, mode)
    ensures ScoreAgrees(env, list[..|list| - 1], user, mode, beatmaps, st.rankedScore) ==>
      ScoreAgrees(env, list, user, mode, beatmaps, st.rankedScore)
    ensures GradesAgree(env, list[..|list| - 1], user, mode, beatmaps, st.grades) ==>
      GradesAgree(env, list, user, mode, beatmaps, st.grades)
  {
    var old_ := list[..|list| - 1];
    forall b ensures RankedBest(env, list, user, mode, b) == RankedBest(env, old_, user, mode, b) {
      OtherBeatmapsUnchanged(env, list, user, mode, b);
    }
    hide RankedBest;
    SumUnchanged(beatmaps, ScoreCredit(env, old_, user, mode), ScoreCredit(env, list, user, mode));
    forall g: Rank ensures SumOver(beatmaps, GradeCredit(env, list, user, mode, g)) ==
                           SumOver(beatmaps, GradeCredit(env, old_, user, mode, g))
    {
      SumUnchanged(beatmaps, GradeCredit(env, old_, user, mode, g), GradeCredit(env, list, user, mode, g));
    }
  }

  /** The rest of the step leaves ranked score, grades and level as ScoreStats made them. */
  lemma OnlyScoreStatsMatter(env: Env, db: Db, s: Score)
    requires StatKeyOf(s) in db.stats
    ensures var after := ProcessUserStep(env, db, s).stats;
      var st := ScoreStats(env, db.scores, db.totals, db.stats[StatKeyOf(s)], s);
      && StatKeyOf(s) in after
      && after[StatKeyOf(s)].rankedScore == st.rankedScore && after[StatKeyOf(s)].grades == st.grades
      && after[StatKeyOf(s)].levelCurrent == st.levelCurrent && after[StatKeyOf(s)].totalScore == st.totalScore
  {
    hide ScoreStats, PlayCredit, ScorePpStep, TotalsAfter, MonthlyAfter, PlaysAfter, StatsAfter;
    PpStepKeeps(env, db, s);
    StatsAfterKeeps(env, ScorePpStep(env, db, s), s, PlayCredit(s, env.totalLength(s.beatmap)));
  }

  lemma StatsAfterKeeps(env: Env, db: Db, s: Score, credit: Option<int>)
    requires StatKeyOf(s) in db.stats
    ensures var after := StatsAfter(env, db, s, credit);
      var st := ScoreStats(env, db.scores, db.totals, db.stats[StatKeyOf(s)], s);
      && after.rankedScore == st.rankedScore && after.grades == st.grades
      && after.levelCurrent == st.levelCurrent && after.totalScore == st.totalScore
  {
    hide ScoreStats;
  }

  // ----- level -----

  /** The stored level never runs ahead of the total score it is computed from. */
  ghost predicate LevelInStep(st: Stats) { st.levelCurrent <= ScoreToLevel(st.totalScore as real) }

  lemma LevelStep(env: Env, db: Db, s: Score)
    requires StatKeyOf(s) in db.stats && LevelInStep(db.stats[StatKeyOf(s)])
    requires DisplayScore(env.settings.scoringMode, s) >= 0
    ensures StatKeyOf(s) in ProcessUserStep(env, db, s).stats
    ensures LevelInStep(ProcessUserStep(env, db, s).stats[StatKeyOf(s)])
  {
    hide ProcessUserStep, ScoreToLevel, Improvement, IsRanked, GradesAfter, DisplayScore;
    var st := db.stats[StatKeyOf(s)];
    OnlyScoreStatsMatter(env, db, s);
    LevelIsMonotone(st.totalScore as real, (st.totalScore + DisplayScore(env.settings.scoringMode, s)) as real);
  }

  lemma {:induction false} LevelNeverAhead(env: Env, start: Db, list: seq<Score>, key: StatKey)
    requires Runnable(start, list) && key in start.stats && LevelInStep(start.stats[key])
    requires forall i :: 0 <= i < |list| ==> DisplayScore(env.settings.scoringMode, list[i]) >= 0
    ensures key in LiveRun(env, start, list).stats && LevelInStep(LiveRun(env, start, list).stats[key])
  {
    hide ProcessUserStep, LevelInStep, DisplayScore;
    if list != [] {
      var n := |list| - 1;
      LevelNeverAhead(env, start, list[..n], key);
      LiveRunTables(env, start, list[..n]);
      var before := LiveRun(env, start, list[..n]);
      if StatKeyOf(list[n]) == key {
        LevelStep(env, before, list[n]);
      } else {
        OtherStatsUnchanged(env, before, list[n], key);
      }
    }
  }
}
