/** When one play makes the grade counters miss the engine's own best row. */
module GradeTies {
  import opened Wrappers
  import opened ScoreModel
  import opened ScoreEngine
  import opened LeaderboardIndex
  import opened ShownScores
  import opened LevelCurve
  import opened RankedScore

  function Weight(env: Env, beatmap: int): int { if OnRankedMap(env, beatmap) then 1 else 0 }

  /** Some counter does not move by what the best rows of a ranked map change. */
  ghost predicate Miscounts(
      env: Env, s: Score, grades: map<Rank, int>, after: map<Rank, int>, best: Option<TotalRow>, next: Option<TotalRow>)
  {
    exists g :: g in grades && g in after &&
      after[g] != grades[g] + Weight(env, s.beatmap) * (RowGrade(next, g) - RowGrade(best, g))
  }

  /** A play that does not beat a row's total does not display as more than its score. */
  ghost predicate ShowsNoMore(env: Env, db: Db, s: Score) {
    forall r :: r in RowsOf(db.totals, KeyOf(s)) ==>
      && r.scoreId in db.scores
      && (s.totalScore <= r.totalScore ==>
            DisplayScore(env.settings.scoringMode, s) <= DisplayScore(env.settings.scoringMode, db.scores[r.scoreId]))
  }

  /** The state of the tables before the play, as `process_user` finds it. */
  ghost predicate ReadyFor(env: Env, db: Db, s: Score, grades: map<Rank, int>) {
    var rows := RowsOf(db.totals, KeyOf(s));
    && PicksLowestId(env.tie) && env.settings.Valid() && Snapshotted(env, s)
    && RowsFor(rows, s) && ShowsNoMore(env, db, s)
    && grades.Keys == NO_GRADES.Keys
    && (OnRankedMap(env, s.beatmap) ==> forall g :: g in grades ==> grades[g] >= RowGrade(BestRow(env.tie, rows), g))
  }

  /** The play displays as more than the best row's score. */
  ghost predicate DisplaysMore(env: Env, db: Db, best: TotalRow, s: Score)
    requires best.scoreId in db.scores
  {
    DisplayScore(env.settings.scoringMode, s) > DisplayScore(env.settings.scoringMode, db.scores[best.scoreId])
  }

  /**
   * A first play without points gets a row but no grade. A play that gets the best row without displaying as more
   * leaves the grade of the old one: it has a better total under other mods, or an equal total and a lower id.
   */
  ghost predicate BreaksGrades(env: Env, db: Db, s: Score)
    requires ShowsNoMore(env, db, s) && PicksMember(env.tie)
  {
    var rows := RowsOf(db.totals, KeyOf(s));
    var best := BestRow(env.tie, rows);
    AnswersOfQueries(env, db.totals, s);
    && s.passed && HasLeaderboard(env, s) && OnRankedMap(env, s.beatmap)
    && if best.None? then DisplayScore(env.settings.scoringMode, s) <= 0 && s.rank in NO_GRADES
       else
         && s.rank != best.value.rank
         && (Overtakes(rows, best.value, s) ||
             (s.totalScore > best.value.totalScore && s.mods != best.value.mods &&
              !DisplaysMore(env, db, best.value, s)))
  }

  lemma ImprovementIsShown(env: Env, db: Db, s: Score, grades: map<Rank, int>)
    requires ReadyFor(env, db, s, grades)
    ensures var best := BestRow(env.tie, RowsOf(db.totals, KeyOf(s)));
      if best.None?
      then Improvement(env, db.scores, db.totals, s) == DisplayScore(env.settings.scoringMode, s)
      else
        && best.value in RowsOf(db.totals, KeyOf(s)) && best.value.scoreId in db.scores
        && (Improvement(env, db.scores, db.totals, s) > 0 <==> DisplaysMore(env, db, best.value, s))
        && (Improvement(env, db.scores, db.totals, s) > 0 ==> s.totalScore > best.value.totalScore)
  {
    hide DisplayScore;
    var rows := RowsOf(db.totals, KeyOf(s));
    if rows != {} { BestRowIsMaximal(env.tie, rows); }
  }

  lemma NextBestRowOf(env: Env, db: Db, s: Score, grades: map<Rank, int>)
    requires ReadyFor(env, db, s, grades)
    ensures var rows := RowsOf(db.totals, KeyOf(s));
      var best := BestRow(env.tie, rows);
      BestRow(env.tie, RowsOf(TotalsAfter(env, db.scores, db.totals, s), KeyOf(s))) ==
      if s.passed && HasLeaderboard(env, s) && Succeeds(rows, best, s, Improvement(env, db.scores, db.totals, s))
      then Some(TotalRowFor(s)) else best
  {
    ImprovementIsShown(env, db, s, grades);
    hide BestRow, Improvement, Succeeds, WithMods, RowsAfter, DisplaysMore;
    var rows := RowsOf(db.totals, KeyOf(s));
    LowestIdIsMember(env.tie);
    OtherKeysUnchanged(env, db.scores, db.totals, s, KeyOf(s));
    if s.passed && HasLeaderboard(env, s) {
      NextBestRow(env.tie, rows, s, BestRow(env.tie, rows), BestRow(env.tie, WithMods(rows, s.mods)),
                  Improvement(env, db.scores, db.totals, s));
    }
  }

  lemma GradesMove(env: Env, db: Db, st: Stats, s: Score)
    requires ReadyFor(env, db, s, st.grades)
    ensures var best := BestRow(env.tie, RowsOf(db.totals, KeyOf(s)));
      var after := ScoreStats(env, db.scores, db.totals, st, s).grades;
      && after.Keys == st.grades.Keys
      && forall g :: g in st.grades ==>
        after[g] == st.grades[g] +
          if s.passed && IsRanked(env, s) && Improvement(env, db.scores, db.totals, s) > 0
          then Grade(Some(s), g) - RowGrade(best, g) else 0
  {
    hide BestRow, Improvement, RowsFor, HasLeaderboard, GradesAfter, Grade, RowGrade, ScoreToLevel, Snapshotted,
      ShowsNoMore, DisplayScore;
    RankedMeansLeaderboard(env, s);
    if s.passed && IsRanked(env, s) && Improvement(env, db.scores, db.totals, s) > 0 {
      AdjustedGrades(st.grades, BestRow(env.tie, RowsOf(db.totals, KeyOf(s))), s);
    }
  }

  /**
   * From counters that count the engine's best rows, in either scoring mode, a play leaves them wrong exactly when it
   * gets the best row of a ranked map without counting as an improvement and with another rank.
   */
  lemma GradesBreakIff(env: Env, db: Db, st: Stats, s: Score)
    requires ReadyFor(env, db, s, st.grades)
    ensures var best := BestRow(env.tie, RowsOf(db.totals, KeyOf(s)));
      var next := BestRow(env.tie, RowsOf(TotalsAfter(env, db.scores, db.totals, s), KeyOf(s)));
      Miscounts(env, s, st.grades, ScoreStats(env, db.scores, db.totals, st, s).grades, best, next) <==>
      BreaksGrades(env, db, s)
  {
    RankedMeansLeaderboard(env, s);
    ImprovementIsShown(env, db, s, st.grades);
    NextBestRowOf(env, db, s, st.grades);
    GradesMove(env, db, st, s);
    hide BestRow, Improvement, Snapshotted, TotalsAfter, ScoreStats, RowsOf, IsRanked, HasLeaderboard, Overtakes,
      Miscounts, DisplayScore, ShowsNoMore, RowsFor, PicksLowestId, DisplaysMore;
    var rows := RowsOf(db.totals, KeyOf(s));
    var best := BestRow(env.tie, rows);
    var difference := Improvement(env, db.scores, db.totals, s);
    var takes := s.passed && HasLeaderboard(env, s) && Succeeds(rows, best, s, difference);
    var improved := s.passed && IsRanked(env, s) && difference > 0;
    OvertakingIsATie(rows, best, s);
    MiscountsIff(env, s, st.grades, ScoreStats(env, db.scores, db.totals, st, s).grades, best, takes, improved);
  }

  lemma OvertakingIsATie(rows: set<TotalRow>, best: Option<TotalRow>, s: Score)
    ensures best.Some? && Overtakes(rows, best.value, s) ==> s.totalScore == best.value.totalScore
  {}

  lemma MiscountsIff(
      env: Env, s: Score, grades: map<Rank, int>, after: map<Rank, int>, best: Option<TotalRow>,
      takes: bool, improved: bool)
    requires grades.Keys == after.Keys == NO_GRADES.Keys && (improved ==> takes && OnRankedMap(env, s.beatmap))
    requires forall g :: g in grades ==>
      after[g] == grades[g] + if improved then Grade(Some(s), g) - RowGrade(best, g) else 0
    ensures Miscounts(env, s, grades, after, best, if takes then Some(TotalRowFor(s)) else best) <==>
      takes && !improved && OnRankedMap(env, s.beatmap) &&
      if best.None? then s.rank in NO_GRADES else s.rank != best.value.rank
  {
    if takes && !improved && OnRankedMap(env, s.beatmap) &&
      (if best.None? then s.rank in NO_GRADES else s.rank != best.value.rank)
    {
      var g := if s.rank in NO_GRADES then s.rank else best.value.rank;
      assert g in grades && g in after;
      assert after[g] != grades[g] + RowGrade(Some(TotalRowFor(s)), g) - RowGrade(best, g);
    }
  }

  // ----- classic mode -----

  /** The play of 600000 without mods stands, and one of 600001 with hidden and a better rank arrives. */
  function HiddenPlay(): Score { HundredCircles(2, 600001).(mods := {"HD"}, rank := C) }

  function AfterFirstPlay(): Db {
    var first := HundredCircles(1, 600000);
    Db(map[1 := first, 2 := HiddenPlay()], map[], {1}, {TotalRowFor(first)}, {},
       map[StatKey(1, Osu) := FRESH_STATS.(grades := NO_GRADES[D := 1])], map[], map[])
  }

  /** In classic mode both display as 255420: the second play takes the best row and the counters keep rank D. */
  lemma ClassicTieBreaksGrades(env: Env)
    requires PicksLowestId(env.tie) && env.settings.Valid() && env.settings.scoringMode == Classic
    requires env.policy(1) == Policy(true, true, true)
    ensures var db, s := AfterFirstPlay(), HiddenPlay();
      var st := db.stats[StatKey(1, Osu)];
      var after := ScoreStats(env, db.scores, db.totals, st, s).grades;
      && BestRow(env.tie, RowsOf(db.totals, KeyOf(s))) == Some(TotalRowFor(HundredCircles(1, 600000)))
      && BestRow(env.tie, RowsOf(TotalsAfter(env, db.scores, db.totals, s), KeyOf(s))) == Some(TotalRowFor(s))
      && ReadyFor(env, db, s, st.grades)
      && Miscounts(env, s, st.grades, after, Some(TotalRowFor(HundredCircles(1, 600000))), Some(TotalRowFor(s)))
  {
    var db, s := AfterFirstPlay(), HiddenPlay();
    var st := db.stats[StatKey(1, Osu)];
    FirstPlayStands(env);
    HiddenPlayArrives(env);
    hide BestRow, DisplayScore, ReadyFor, Snapshotted, RowsFor, TotalsAfter, ScoreStats, Miscounts, Improvement;
    GradesBreakIff(env, db, st, s);
    NextBestRowOf(env, db, s, st.grades);
    ImprovementIsShown(env, db, s, st.grades);
  }

  lemma FirstPlayStands(env: Env)
    requires PicksLowestId(env.tie)
    ensures var rows, row := RowsOf(AfterFirstPlay().totals, KeyOf(HiddenPlay())),
        TotalRowFor(HundredCircles(1, 600000));
      rows == {row} && BestRow(env.tie, rows) == Some(row)
  {
    BestRowIsMaximal(env.tie, {TotalRowFor(HundredCircles(1, 600000))});
  }

  lemma HiddenPlayArrives(env: Env)
    requires PicksLowestId(env.tie) && env.settings.Valid() && env.settings.scoringMode == Classic
    requires env.policy(1) == Policy(true, true, true)
    ensures ReadyFor(env, AfterFirstPlay(), HiddenPlay(), NO_GRADES[D := 1])
    ensures BreaksGrades(env, AfterFirstPlay(), HiddenPlay())
  {
    var s := HiddenPlay();
    ClassicOfHundred();
    FirstPlayStands(env);
    hide BestRow, StandardisedToClassic, TotalsAfter, ScoreStats;
    assert Snapshotted(env, s) by {
      assert SnapshotEligibility(env.settings, env.policy(s.beatmap), true) == Eligibility(true, true, true);
    }
  }
}
