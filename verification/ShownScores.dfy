/** What the leaderboard rows say about display scores, in either scoring mode. */
module ShownScores {
  import opened Wrappers
  import opened ScoreModel
  import opened ScoreEngine
  import opened LeaderboardIndex

  // ----- the highest display score -----

  /** Some row copies a play that displays as at least `shown`. */
  ghost predicate ShownBy(mode: ScoringMode, rows: set<TotalRow>, plays: seq<Score>, shown: int) {
    exists j :: 0 <= j < |plays| && TotalRowFor(plays[j]) in rows && shown <= DisplayScore(mode, plays[j])
  }

  /** The rows copy plays, one for each mod set, and no play displays as more than all of them. */
  ghost predicate Shows(mode: ScoringMode, rows: set<TotalRow>, plays: seq<Score>) {
    && (rows == {} <==> plays == [])
    && (forall r :: r in rows ==> Copies(r, plays))
    && OneRowPerModSet(rows)
    && (forall i :: 0 <= i < |plays| ==> ShownBy(mode, rows, plays, DisplayScore(mode, plays[i])))
  }

  ghost predicate ShowsMost(mode: ScoringMode, plays: seq<Score>, p: nat) {
    p < |plays| && forall i :: 0 <= i < |plays| ==> DisplayScore(mode, plays[i]) <= DisplayScore(mode, plays[p])
  }

  /** A row with the highest total copies a play with the highest display score. */
  lemma HighestRowShowsMost(mode: ScoringMode, rows: set<TotalRow>, plays: seq<Score>, best: TotalRow) returns (p: nat)
    requires Shows(mode, rows, plays) && NeverShowsLess(mode, plays) && Maximal(best, rows)
    ensures ShowsMost(mode, plays, p) && best == TotalRowFor(plays[p])
  {
    hide DisplayScore;
    assert Copies(best, plays);
    p :| p < |plays| && best == TotalRowFor(plays[p]);
    forall i | 0 <= i < |plays| ensures DisplayScore(mode, plays[i]) <= DisplayScore(mode, plays[p]) {
      assert ShownBy(mode, rows, plays, DisplayScore(mode, plays[i]));
      var j :| 0 <= j < |plays| && TotalRowFor(plays[j]) in rows &&
        DisplayScore(mode, plays[i]) <= DisplayScore(mode, plays[j]);
      assert plays[j].totalScore <= plays[p].totalScore;
    }
  }

  /** The row that the update leaves on top: the play's own if it improves, else the old best. */
  lemma RowsAfterKeepTop(
      rows: set<TotalRow>, s: Score, best: Option<TotalRow>, bestMod: Option<TotalRow>, difference: int)
    requires DistinctRowIds(rows) && Answers(rows, s, best, bestMod)
    requires forall r :: r in rows ==> r.key == KeyOf(s)
    requires best.Some? && difference > 0 ==> s.totalScore > best.value.totalScore
    ensures var after := RowsAfter(rows, best, bestMod, difference, s);
      if best.None? || difference > 0 then TotalRowFor(s) in after else best.value in after
  {
    if best.Some? && bestMod.Some? {
      RowKeepsKeyAndMods(bestMod.value, s);
      assert best.value.scoreId == bestMod.value.scoreId ==> best == bestMod;
    }
  }

  /**
   * All four cases, for any row the database picks among tied ones: whatever total is lost, the highest display
   * score is not.
   */
  lemma RowsAfterShow(
      mode: ScoringMode, rows: set<TotalRow>, plays: seq<Score>, s: Score,
      best: Option<TotalRow>, bestMod: Option<TotalRow>, difference: int, p: nat)
    requires Shows(mode, rows, plays) && DistinctBy(plays, SCORE_ID) && forall r :: r in rows ==> r.key == KeyOf(s)
    requires NeverShowsLess(mode, plays + [s]) && Answers(rows, s, best, bestMod)
    requires best.Some? ==>
      && ShowsMost(mode, plays, p) && best.value == TotalRowFor(plays[p])
      && difference == DisplayScore(mode, s) - DisplayScore(mode, plays[p])
    ensures Shows(mode, RowsAfter(rows, best, bestMod, difference, s), plays + [s])
  {
    hide DisplayScore, RowsAfter, DistinctBy, OneRowPerModSet, Copies, NeverShowsLess;
    var all, after := plays + [s], RowsAfter(rows, best, bestMod, difference, s);
    CopiesHaveDistinctIds(rows, plays);
    RowsAfterModSets(rows, s, best, bestMod, difference);
    if best.Some? { BetterShownHasBetterTotal(mode, plays, s, p); }
    RowsAfterKeepTop(rows, s, best, bestMod, difference);
    forall r | r in after ensures Copies(r, all) { CopiesExtend(r, plays, s); }
    var top := if best.None? || difference > 0 then |plays| else p;
    TopShows(mode, plays, s, p, top);
    assert TotalRowFor(all[top]) in after;
    forall i | 0 <= i < |all| ensures ShownBy(mode, after, all, DisplayScore(mode, all[i])) {
      assert DisplayScore(mode, all[i]) <= DisplayScore(mode, all[top]);
    }
  }

  lemma BetterShownHasBetterTotal(mode: ScoringMode, plays: seq<Score>, s: Score, p: nat)
    requires NeverShowsLess(mode, plays + [s]) && p < |plays|
    ensures DisplayScore(mode, s) > DisplayScore(mode, plays[p]) ==> s.totalScore > plays[p].totalScore
    ensures s.totalScore >= plays[p].totalScore ==> DisplayScore(mode, s) >= DisplayScore(mode, plays[p])
  {
    hide DisplayScore;
    assert (plays + [s])[|plays|] == s && (plays + [s])[p] == plays[p];
  }

  lemma TopShows(mode: ScoringMode, plays: seq<Score>, s: Score, p: nat, top: nat)
    requires plays != [] ==> ShowsMost(mode, plays, p)
    requires if plays == [] || DisplayScore(mode, s) > DisplayScore(mode, plays[p]) then top == |plays| else top == p
    ensures ShowsMost(mode, plays + [s], top)
  {
    hide DisplayScore;
  }

  /** After any run, in either scoring mode and for any tied choices, the rows show the highest display score. */
  lemma {:induction false} RowsShowTheHighest(
      scores: map<int, Score>, start: set<TotalRow>, steps: seq<Step>, key: Key, mode: ScoringMode)
    requires WellFormedRun(scores, steps) && RowsOf(start, key) == {}
    requires forall i :: 0 <= i < |steps| ==> steps[i].env.settings.scoringMode == mode
    requires NeverShowsLess(mode, Plays(steps, key))
    ensures Shows(mode, RowsOf(TotalsRun(scores, start, steps), key), Plays(steps, key))
  {
    hide Shows, NeverShowsLess, WellFormedRun;
    if steps == [] {
      NothingShows(mode);
    } else {
      var n := |steps| - 1;
      var step, totals := steps[n], TotalsRun(scores, start, steps[..n]);
      ConditionsBefore(mode, steps, key);
      PrefixIsWellFormed(scores, steps, n);
      RowsShowTheHighest(scores, start, steps[..n], key, mode);
      OtherKeysUnchanged(step.env, scores, totals, step.score, key);
      assert Plays(steps[..n], key) + [] == Plays(steps[..n], key);
      if Counts(step, key) {
        PlaysAreStored(scores, steps[..n], key);
        PlaysHaveDistinctIds(scores, steps[..n], key);
        StepShows(step.env, scores, totals, Plays(steps[..n], key), step.score);
      }
    }
  }

  lemma NothingShows(mode: ScoringMode)
    ensures Shows(mode, {}, [])
  {}

  lemma StepShows(env: Env, scores: map<int, Score>, totals: set<TotalRow>, plays: seq<Score>, s: Score)
    requires PicksMember(env.tie) && s.passed && HasLeaderboard(env, s)
    requires Shows(env.settings.scoringMode, RowsOf(totals, KeyOf(s)), plays) && DistinctBy(plays, SCORE_ID)
    requires forall i :: 0 <= i < |plays| ==> plays[i].id in scores && scores[plays[i].id] == plays[i]
    requires NeverShowsLess(env.settings.scoringMode, plays + [s])
    ensures Shows(env.settings.scoringMode, RowsOf(TotalsAfter(env, scores, totals, s), KeyOf(s)), plays + [s])
  {
    hide Shows, NeverShowsLess, BestRow, RowsAfter, TotalsAfter, Improvement, DistinctBy, DisplayScore;
    var mode, rows := env.settings.scoringMode, RowsOf(totals, KeyOf(s));
    var best, bestMod := BestRow(env.tie, rows), BestRow(env.tie, WithMods(rows, s.mods));
    AnswersOfQueries(env, totals, s);
    OtherKeysUnchanged(env, scores, totals, s, KeyOf(s));
    var p := 0;
    if best.Some? {
      ConditionsOfPrefix(mode, plays, [s]);
      p := HighestRowShowsMost(mode, rows, plays, best.value);
      ImprovementOver(env, scores, totals, s, plays, p);
    }
    RowsAfterShow(mode, rows, plays, s, best, bestMod, Improvement(env, scores, totals, s), p);
  }

  /** Every row has the columns of one of the plays. */
  lemma RowsCarryPlays(mode: ScoringMode, rows: set<TotalRow>, plays: seq<Score>)
    requires Shows(mode, rows, plays)
    ensures forall row :: row in rows ==> exists s :: s in plays && CarriesPlay(row, s)
  {
    hide DisplayScore, ShownBy, OneRowPerModSet;
    forall row | row in rows ensures exists s :: s in plays && CarriesPlay(row, s) {
      assert Copies(row, plays);
      var i :| 0 <= i < |plays| && row == TotalRowFor(plays[i]);
      assert plays[i] in plays && CarriesPlay(row, plays[i]);
    }
  }

  ghost predicate CarriesPlay(row: TotalRow, s: Score) {
    && row.key.user == s.user && row.key.beatmap == s.beatmap && row.key.mode == s.mode && row.scoreId == s.id
    && row.totalScore == s.totalScore && row.rank == s.rank && row.mods == s.mods
  }

  // ----- the next best row -----

  /** Ties are broken by the lowest score id. */
  ghost predicate PicksLowestId(tie: set<TotalRow> -> TotalRow) {
    PicksMember(tie) &&
    forall rows: set<TotalRow>, r :: r in rows ==> tie(rows).scoreId <= r.scoreId
  }

  lemma LowestIdIsMember(tie: set<TotalRow> -> TotalRow)
    requires PicksLowestId(tie)
    ensures PicksMember(tie)
  {
  }

  /** The rows of one user, beatmap and mode before a play with a new id. */
  ghost predicate RowsFor(rows: set<TotalRow>, s: Score) {
    && OneRowPerModSet(rows) && DistinctRowIds(rows)
    && forall r :: r in rows ==> r.key == KeyOf(s) && r.scoreId != s.id
  }

  /** A play of equal total takes the best row's place by a lower id, unless its mods already have that total. */
  ghost predicate Overtakes(rows: set<TotalRow>, best: TotalRow, s: Score) {
    && s.totalScore == best.totalScore && s.id < best.scoreId
    && forall m :: m in rows && m.mods == s.mods ==> m.totalScore != s.totalScore
  }

  /** A play of better total takes the best row's place if it improves, or if the best row is not of its mods. */
  ghost predicate Beats(best: TotalRow, s: Score, difference: int) {
    s.totalScore > best.totalScore && (difference > 0 || best.mods != s.mods)
  }

  ghost predicate Succeeds(rows: set<TotalRow>, best: Option<TotalRow>, s: Score, difference: int) {
    best.None? || Beats(best.value, s, difference) || Overtakes(rows, best.value, s)
  }

  lemma LowestOfTops(tie: set<TotalRow> -> TotalRow, rows: set<TotalRow>, top: TotalRow)
    requires PicksLowestId(tie) && DistinctRowIds(rows) && Maximal(top, rows)
    requires forall r :: r in rows && r.totalScore == top.totalScore ==> top.scoreId <= r.scoreId
    ensures BestRow(tie, rows) == Some(top)
  {
    assert top in Tops(rows);
    assert tie(Tops(rows)) in Tops(rows) && tie(Tops(rows)).scoreId <= top.scoreId;
  }

  lemma BestRowIsLowestTop(tie: set<TotalRow> -> TotalRow, rows: set<TotalRow>, best: TotalRow)
    requires PicksLowestId(tie) && BestRow(tie, rows) == Some(best)
    ensures Maximal(best, rows)
    ensures forall r :: r in rows && r.totalScore == best.totalScore ==> best.scoreId <= r.scoreId
  {
    BestRowIsMaximal(tie, rows);
    forall r | r in rows && r.totalScore == best.totalScore ensures best.scoreId <= r.scoreId {
      assert r in Tops(rows);
    }
  }

  /** The row that the next comparison will use, in either scoring mode. */
  lemma NextBestRow(
      tie: set<TotalRow> -> TotalRow, rows: set<TotalRow>, s: Score,
      best: Option<TotalRow>, bestMod: Option<TotalRow>, difference: int)
    requires PicksLowestId(tie) && RowsFor(rows, s)
    requires best == BestRow(tie, rows) && bestMod == BestRow(tie, WithMods(rows, s.mods))
    requires best.Some? && difference > 0 ==> s.totalScore > best.value.totalScore
    ensures BestRow(tie, RowsAfter(rows, best, bestMod, difference, s)) ==
      if Succeeds(rows, best, s, difference) then Some(TotalRowFor(s)) else best
  {
    var after, row := RowsAfter(rows, best, bestMod, difference, s), TotalRowFor(s);
    if best.None? {
      assert after == {row};
      LowestOfTops(tie, after, row);
    } else {
      BestRowIsLowestTop(tie, rows, best.value);
      if WithMods(rows, s.mods) != {} { BestRowIsMaximal(tie, WithMods(rows, s.mods)); }
      RowsAfterAre(rows, s, best.value, bestMod, difference);
      hide BestRow, RowsAfter;
      LowestOfTops(tie, after, if Succeeds(rows, best, s, difference) then row else best.value);
    }
  }

  /** What the four cases leave: the play's row where it counts, and the best row unless the play improves. */
  lemma RowsAfterAre(rows: set<TotalRow>, s: Score, b: TotalRow, bestMod: Option<TotalRow>, difference: int)
    requires RowsFor(rows, s) && Maximal(b, rows) && (difference > 0 ==> s.totalScore > b.totalScore)
    requires if WithMods(rows, s.mods) == {} then bestMod.None?
             else bestMod.Some? && bestMod.value in WithMods(rows, s.mods)
    ensures var after := RowsAfter(rows, Some(b), bestMod, difference, s);
      && DistinctRowIds(after)
      && (forall r :: r in after ==> r in rows || r == TotalRowFor(s))
      && (TotalRowFor(s) in after <==>
            bestMod.None? || (if b.mods == s.mods then difference > 0 else s.totalScore > bestMod.value.totalScore))
      && (difference <= 0 ==> b in after)
  {
    if bestMod.Some? {
      RowKeepsKeyAndMods(bestMod.value, s);
      assert b.scoreId == bestMod.value.scoreId ==> b == bestMod.value;
      assert b.mods == s.mods <==> b == bestMod.value;
    }
  }

  // ----- steady beatmaps -----

  /** Totals are not negative, and the plays have one object count. */
  ghost predicate Steady(plays: seq<Score>) {
    && (forall i :: 0 <= i < |plays| ==> plays[i].totalScore >= 0)
    && forall i, j :: 0 <= i < |plays| && 0 <= j < |plays| ==>
        plays[i].basicTotal == plays[j].basicTotal && plays[i].mode == plays[j].mode
  }

  /** In either scoring mode, plays of one object count without negative totals never display less for more. */
  lemma SteadyPlaysNeverShowLess(mode: ScoringMode, plays: seq<Score>)
    requires Steady(plays)
    ensures NeverShowsLess(mode, plays)
    ensures forall i :: 0 <= i < |plays| ==> DisplayScore(mode, plays[i]) >= 0
  {
    hide StandardisedToClassic;
    forall i, j | 0 <= i < |plays| && 0 <= j < |plays| && plays[i].totalScore <= plays[j].totalScore
      ensures 0 <= DisplayScore(mode, plays[i]) <= DisplayScore(mode, plays[j])
    {
      ClassicIsMonotone(
        plays[i].mode.RulesetId(), plays[i].totalScore, plays[j].totalScore, plays[i].basicTotal);
    }
  }
}
