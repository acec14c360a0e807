/** The stored level after a run: that of the total score at the last play that raised the ranked score. */
module LevelRuns {
  import opened Wrappers
  import opened ScoreModel
  import opened ScoreEngine
  import opened LeaderboardIndex
  import opened ShownScores
  import opened EngineRuns
  import opened LevelCurve
  import opened RankedScore

  // ----- the plays that raise the ranked score -----

  /** Passed, on a ranked map and with a leaderboard. */
  predicate Enters(env: Env, s: Score) {
    && s.passed && s.leaderboardEligible
    && (env.policy(s.beatmap).leaderboardEnabled || env.settings.allBeatmapLeaderboard)
  }

  predicate OnRanked(env: Env, s: Score) { env.policy(s.beatmap).statusRanked || env.settings.allBeatmapPp }

  function Shown(env: Env, s: Score): int { DisplayScore(env.settings.scoringMode, s) }

  /** Play `i` enters the leaderboard of a ranked map and displays above zero and above every earlier play there. */
  ghost predicate Raises(env: Env, list: seq<Score>, i: nat) {
    && i < |list| && Enters(env, list[i]) && OnRanked(env, list[i]) && Shown(env, list[i]) > 0
    && forall j :: 0 <= j < i && SameMap(list[j], list[i]) && Enters(env, list[j]) ==>
      Shown(env, list[j]) < Shown(env, list[i])
  }

  predicate SameMap(a: Score, b: Score) { a.user == b.user && a.beatmap == b.beatmap && a.mode == b.mode }

  predicate Of(s: Score, user: int, mode: GameMode) { s.user == user && s.mode == mode }

  /** The sum of the display scores of the user's plays in the mode. */
  function ShownTotal(env: Env, list: seq<Score>, user: int, mode: GameMode): int {
    if list == [] then 0
    else
      var n := |list| - 1;
      ShownTotal(env, list[..n], user, mode) + if Of(list[n], user, mode) then Shown(env, list[n]) else 0
  }

  ghost predicate LastRaise(env: Env, list: seq<Score>, user: int, mode: GameMode, i: nat) {
    && i < |list| && Of(list[i], user, mode) && Raises(env, list, i)
    && forall j :: i < j < |list| && Of(list[j], user, mode) ==> !Raises(env, list, j)
  }

  ghost predicate NoRaise(env: Env, list: seq<Score>, user: int, mode: GameMode) {
    forall i :: 0 <= i < |list| && Of(list[i], user, mode) ==> !Raises(env, list, i)
  }

  /** The level the record should hold. */
  ghost predicate LevelFits(env: Env, list: seq<Score>, user: int, mode: GameMode, level: real) {
    && (NoRaise(env, list, user, mode) ==> level == 1.0)
    && forall i: nat :: LastRaise(env, list, user, mode, i) ==>
      level == ScoreToLevel(ShownTotal(env, list[..i + 1], user, mode) as real)
  }

  // ----- one more play -----

  lemma RaisesBefore(env: Env, list: seq<Score>, i: nat)
    requires list != [] && i < |list| - 1
    ensures Raises(env, list, i) <==> Raises(env, list[..|list| - 1], i)
  {
    hide DisplayScore, Enters;
    var before := list[..|list| - 1];
    assert forall j :: 0 <= j < |before| ==> before[j] == list[j];
  }

  lemma LevelFitsExtends(
      env: Env, list: seq<Score>, user: int, mode: GameMode, before: real, after: real)
    requires list != [] && LevelFits(env, list[..|list| - 1], user, mode, before)
    requires var n := |list| - 1;
      after == if Of(list[n], user, mode) && Raises(env, list, n)
               then ScoreToLevel(ShownTotal(env, list, user, mode) as real) else before
    ensures LevelFits(env, list, user, mode, after)
  {
    hide Raises, ScoreToLevel, ShownTotal, Of, LastRaise, NoRaise;
    var n := |list| - 1;
    if Of(list[n], user, mode) && Raises(env, list, n) {
      NewRaiseIsLast(env, list, user, mode);
      assert list[..n + 1] == list;
    } else {
      SameRaises(env, list, user, mode);
      forall i: nat | LastRaise(env, list, user, mode, i)
        ensures after == ScoreToLevel(ShownTotal(env, list[..i + 1], user, mode) as real)
      {
        assert list[..n][..i + 1] == list[..i + 1];
      }
    }
  }

  lemma NewRaiseIsLast(env: Env, list: seq<Score>, user: int, mode: GameMode)
    requires list != [] && Of(list[|list| - 1], user, mode) && Raises(env, list, |list| - 1)
    ensures !NoRaise(env, list, user, mode)
    ensures forall i: nat :: LastRaise(env, list, user, mode, i) ==> i == |list| - 1
  {
    hide Raises, Of;
  }

  lemma SameRaises(env: Env, list: seq<Score>, user: int, mode: GameMode)
    requires list != [] && !(Of(list[|list| - 1], user, mode) && Raises(env, list, |list| - 1))
    ensures var before := list[..|list| - 1];
      && (NoRaise(env, list, user, mode) ==> NoRaise(env, before, user, mode))
      && forall i: nat :: LastRaise(env, list, user, mode, i) ==> i < |before| && LastRaise(env, before, user, mode, i)
  {
    hide Raises, Of;
    var n := |list| - 1;
    forall i | 0 <= i < n ensures Raises(env, list, i) <==> Raises(env, list[..n], i) { RaisesBefore(env, list, i); }
    assert forall i :: 0 <= i < n ==> list[..n][i] == list[i];
  }

  /** The engine improves on exactly the plays that raise. */
  lemma ImprovesIffRaises(env: Env, db: Db, list: seq<Score>)
    requires list != [] && Runnable(db, list) && env.settings.Valid() && PicksMember(env.tie) && Fair(env, list)
    requires Shows(
      env.settings.scoringMode, RowsOf(db.totals, KeyOf(list[|list| - 1])),
      PlaysOf(env, list[..|list| - 1], KeyOf(list[|list| - 1])))
    ensures var s := list[|list| - 1];
      Improvement(env, db.scores, db.totals, s) > 0 && s.passed && IsRanked(env, s) <==> Raises(env, list, |list| - 1)
  {
    hide Shows, DisplayScore, Plays, Snapshotted, BestPlay, NeverShowsLess, Runnable, RowsOf, IsRanked;
    var n := |list| - 1;
    var s, before := list[n], PlaysOf(env, list[..n], KeyOf(list[n]));
    RankedOnFields(env, list);
    if s.passed && IsRanked(env, s) {
      ShownIsNonEmpty(env.settings.scoringMode, RowsOf(db.totals, KeyOf(s)), before);
      EarlierPlays(env, list[..n], KeyOf(s));
      if before == [] {
        FirstImprovement(env, db, s);
      } else {
        LastFollows(env, list);
        ImprovementOverBest(env, db, list, KeyOf(s));
        BestIsAPlay(env, list[..n], KeyOf(s));
      }
    }
  }

  lemma RankedOnFields(env: Env, list: seq<Score>)
    requires list != [] && env.settings.Valid() && Fair(env, list)
    ensures var s := list[|list| - 1]; s.passed && IsRanked(env, s) <==> Enters(env, s) && OnRanked(env, s)
    ensures var s := list[|list| - 1]; Counts(Step(env, s), KeyOf(s)) <==> Enters(env, s)
  {
    hide NeverShowsLess, DisplayScore, Plays;
    RankedMeansLeaderboard(env, list[|list| - 1]);
  }

  lemma LastFollows(env: Env, list: seq<Score>)
    requires list != [] && Fair(env, list)
    ensures NeverShowsLess(env.settings.scoringMode, PlaysOf(env, list, KeyOf(list[|list| - 1])))
  {
  }

  lemma FirstImprovement(env: Env, db: Db, s: Score)
    requires RowsOf(db.totals, KeyOf(s)) == {}
    ensures Improvement(env, db.scores, db.totals, s) == Shown(env, s)
  {
  }

  /** The plays of a key are the earlier ones that entered its leaderboard. */
  lemma {:induction false} EarlierPlays(env: Env, list: seq<Score>, key: Key)
    ensures forall j :: 0 <= j < |list| && KeyOf(list[j]) == key && Enters(env, list[j]) ==>
      list[j] in PlaysOf(env, list, key)
    ensures forall s :: s in PlaysOf(env, list, key) ==>
      exists j :: 0 <= j < |list| && list[j] == s && KeyOf(s) == key && Enters(env, s)
  {
    if list != [] {
      var n := |list| - 1;
      EarlierPlays(env, list[..n], key);
      PlaysOfStep(env, list, key);
      hide PlaysOf;
      forall s | s in PlaysOf(env, list, key)
        ensures exists j :: 0 <= j < |list| && list[j] == s && KeyOf(s) == key && Enters(env, s)
      {
        if s in PlaysOf(env, list[..n], key) {
          var j :| 0 <= j < n && list[..n][j] == s && KeyOf(s) == key && Enters(env, s);
          assert list[j] == s;
        } else {
          assert list[n] == s;
        }
      }
      forall j | 0 <= j < |list| && KeyOf(list[j]) == key && Enters(env, list[j])
        ensures list[j] in PlaysOf(env, list, key)
      {
        if j < n { assert list[..n][j] == list[j]; }
      }
    } else {
      assert PlaysOf(env, list, key) == [];
    }
  }

  lemma BestIsAPlay(env: Env, list: seq<Score>, key: Key)
    requires PlaysOf(env, list, key) != []
    ensures var plays := PlaysOf(env, list, key); BestPlay(plays).Some? && BestPlay(plays).value in plays
  {
    hide PlaysOf, BestPlay;
    var i := BestPlayIsFirstMaximum(PlaysOf(env, list, key));
  }

  // ----- whole runs -----

  lemma LevelStepIs(env: Env, db: Db, s: Score, user: int, mode: GameMode)
    requires StatKeyOf(s) in db.stats && StatKey(user, mode) in db.stats
    ensures var before := db.stats[StatKey(user, mode)];
      StatKey(user, mode) in ProcessUserStep(env, db, s).stats &&
      var after := ProcessUserStep(env, db, s).stats[StatKey(user, mode)];
      var improved := Improvement(env, db.scores, db.totals, s) > 0 && s.passed && IsRanked(env, s);
      && after.totalScore == before.totalScore + (if Of(s, user, mode) then Shown(env, s) else 0)
      && after.levelCurrent ==
        if Of(s, user, mode) && improved then ScoreToLevel(after.totalScore as real) else before.levelCurrent
  {
    hide ProcessUserStep, ScoreToLevel, Improvement, IsRanked, GradesAfter, DisplayScore, BestRow, RowsOf;
    if StatKeyOf(s) == StatKey(user, mode) {
      OnlyScoreStatsMatter(env, db, s);
    } else {
      OtherStatsUnchanged(env, db, s, StatKey(user, mode));
    }
  }

  /**
   * After any run of a fresh user in either mode: the total score is the sum of the display scores, and the level is
   * that of the sum up to and including the last play that raised the ranked score, or 1 if none did.
   */
  lemma {:induction false} LevelIsThatOfTheLastRaise(
      env: Env, start: Db, list: seq<Score>, user: int, mode: GameMode)
    requires Runnable(start, list) && env.settings.Valid() && PicksMember(env.tie) && Fair(env, list)
    requires FreshUser(start, user, mode)
    ensures StatKey(user, mode) in LiveRun(env, start, list).stats
    ensures var st := LiveRun(env, start, list).stats[StatKey(user, mode)];
      st.totalScore == ShownTotal(env, list, user, mode) && LevelFits(env, list, user, mode, st.levelCurrent)
  {
    hide LevelFits, Fair, ProcessUserStep, Improvement, IsRanked, RowsOf, PicksMember, Shows, DistinctBy,
      NeverShowsLess, Raises, DisplayScore, ScoreToLevel, Plays;
    LiveRunTables(env, start, list);
    if list == [] {
      NothingRaises(env, user, mode);
    } else {
      var n := |list| - 1;
      var s, before := list[n], LiveRun(env, start, list[..n]);
      FairBefore(env, list);
      LiveRunTables(env, start, list[..n]);
      LevelIsThatOfTheLastRaise(env, start, list[..n], user, mode);
      LevelStepIs(env, before, s, user, mode);
      if Of(s, user, mode) {
        FairFollows(env, list[..n], KeyOf(s));
        RunShows(env, start, list[..n], KeyOf(s));
        ImprovesIffRaises(env, before, list);
      }
      LevelFitsExtends(env, list, user, mode, before.stats[StatKey(user, mode)].levelCurrent,
        LiveRun(env, start, list).stats[StatKey(user, mode)].levelCurrent);
    }
  }

  lemma NothingRaises(env: Env, user: int, mode: GameMode)
    ensures LevelFits(env, [], user, mode, 1.0)
  {
  }
}
