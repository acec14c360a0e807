/** Deleting a score of a user whose whole history was processed live, and the inputs for which that is no undo. */
module DeletionRuns {
  import opened Wrappers
  import opened ScoreModel
  import opened Ordering
  import opened ScoreEngine
  import opened LeaderboardIndex
  import opened EngineRuns
  import opened LevelCurve
  import opened PpCache
  import opened AdminRebuild

  // ----- inputs for which deletion is not an undo -----

  /** The two outcomes that an exact undo would make equal. */
  ghost predicate UndoIsExact(env: Env, db: Db, user: int, id: int) {
    var left := RemoveScore(db, id);
    Visible(DeleteScore(env, db, user, id)) == Visible(LiveRun(env, ClearUser(left, user), Survivors(left, user)))
  }

  ghost predicate Deletable(env: Env, db: Db, user: int, id: int) {
    && OwnsScore(db, user, id) && KeyedById(db) && HasStatRows(RemoveScore(db, id), user)
    && SaneLengths(env, Survivors(RemoveScore(db, id), user))
  }

  /** One survivor that the drain time credits differently is enough. */
  lemma CreditGapBreaksUndo(env: Env, db: Db, user: int, id: int, s: Score)
    requires Deletable(env, db, user, id) && s in Survivors(RemoveScore(db, id), user)
    requires PlayCredit(s, env.totalLength(s.beatmap)) != PlayCredit(s, env.hitLength(s.beatmap))
    ensures !UndoIsExact(env, db, user, id)
  {
    hide Survivors, LiveRun, Visible, DeleteScore, PlayCredit, PpAgrees;
    DeletionIsUndoIff(env, db, user, id);
    var list := Survivors(RemoveScore(db, id), user);
    var i :| 0 <= i < |list| && list[i] == s;
    assert PlayCredit(list[i], env.totalLength(list[i].beatmap)) != PlayCredit(list[i], env.hitLength(list[i].beatmap));
  }

  /** A passed play of 100 seconds, on a map of 120 seconds with 90 seconds of drain, loses ten in the rebuild. */
  lemma DrainTimeBreaksUndo(env: Env, db: Db, user: int, id: int, s: Score)
    requires Deletable(env, db, user, id) && s in Survivors(RemoveScore(db, id), user)
    requires s.passed && s.speedRate == 1.0 && s.elapsed == 100.0
    requires env.totalLength(s.beatmap) == 120 && env.hitLength(s.beatmap) == 90
    ensures PlayCredit(s, 120) == Some(100) && PlayCredit(s, 90) == Some(90)
    ensures !UndoIsExact(env, db, user, id)
  {
    hide UndoIsExact, Deletable, Survivors;
    CreditGapBreaksUndo(env, db, user, id, s);
  }

  /** A sole awarded play worth no pp has a row after live processing and none after the rebuild. */
  lemma WorthlessPlayBreaksUndo(env: Env, db: Db, user: int, id: int, s: Score)
    requires Deletable(env, db, user, id) && s in Survivors(RemoveScore(db, id), user)
    requires AwardedPp(env, StoredPp(RemoveScore(db, id).storedPp, s.id), s) == Some(0.0)
    requires forall t :: t in Survivors(RemoveScore(db, id), user) && t != s && KeyOf(t) == KeyOf(s) ==>
      AwardedPp(env, StoredPp(RemoveScore(db, id).storedPp, t.id), t).None?
    ensures !UndoIsExact(env, db, user, id)
  {
    hide Survivors, LiveRun, Visible, DeleteScore, LengthsAgree, FirstMaxPp, AwardedPp, RemoveScore;
    var left := RemoveScore(db, id);
    var list, live := Survivors(left, user), LiveAward(env, left);
    DeletionIsUndoIff(env, db, user, id);
    var i := FirstMaxPpIsFirstBest(list, live, KeyOf(s));
    var j :| 0 <= j < |list| && list[j] == s;
    assert Awarded(list[j], live, KeyOf(s));
    FirstMaxIsAwarded(list, live, KeyOf(s));
    assert list[i] in list;
    assert FirstMaxPp(list, live, KeyOf(s)) == Some(s);
    RefusedByRebuild(env, left, s);
  }

  lemma RefusedByRebuild(env: Env, db: Db, s: Score)
    requires AwardedPp(env, StoredPp(db.storedPp, s.id), s) == Some(0.0)
    ensures RebuildAward(env, db.storedPp)(s).None?
  {}

  // ----- what a run writes beside the aggregates -----

  /** The pp that a run stores earns each of its scores, processed again, what it earned the first time. */
  lemma {:induction false} StoredPpReproducesAwards(env: Env, start: Db, list: seq<Score>, i: nat)
    requires Runnable(start, list) && i < |list|
    ensures AwardedPp(env, StoredPp(LiveRun(env, start, list).storedPp, list[i].id), list[i]) ==
      AwardedPp(env, StoredPp(start.storedPp, list[i].id), list[i])
  {
    hide ProcessUserStep, AwardedPp;
    var n := |list| - 1;
    var before := LiveRun(env, start, list[..n]);
    LiveRunTables(env, start, list[..n]);
    if i < n {
      StoredPpReproducesAwards(env, start, list[..n], i);
      StepStoresOnlyItsPp(env, before, list[n], list[i].id);
    } else {
      StoredPpUntouched(env, start, list[..n], list[n].id);
      StepReproducesAward(env, before, list[n]);
    }
  }

  lemma StepStoresOnlyItsPp(env: Env, db: Db, s: Score, id: int)
    requires s.id != id
    ensures StoredPp(ProcessUserStep(env, db, s).storedPp, id) == StoredPp(db.storedPp, id)
  {
    hide StatsAfter, TotalsAfter, MonthlyAfter, PlaysAfter, PlayCredit, BestsAfter, AwardedPp;
  }

  lemma StepReproducesAward(env: Env, db: Db, s: Score)
    ensures AwardedPp(env, StoredPp(ProcessUserStep(env, db, s).storedPp, s.id), s) ==
      AwardedPp(env, StoredPp(db.storedPp, s.id), s)
  {
    hide StatsAfter, TotalsAfter, MonthlyAfter, PlaysAfter, PlayCredit, BestsAfter;
  }

  lemma StepMarksProcessed(env: Env, db: Db, s: Score)
    requires StatKeyOf(s) in db.stats
    ensures ProcessUserStep(env, db, s).processed == db.processed + {s.id}
    ensures ProcessUserStep(env, db, s).scores == db.scores
  {
    hide StatsAfter, TotalsAfter, MonthlyAfter, PlaysAfter, PlayCredit, BestsAfter, AwardedPp;
  }

  lemma {:induction false} RunMarksProcessed(env: Env, start: Db, list: seq<Score>)
    requires Runnable(start, list)
    ensures LiveRun(env, start, list).processed == start.processed + set i | 0 <= i < |list| :: list[i].id
    ensures LiveRun(env, start, list).scores == start.scores
  {
    hide ProcessUserStep;
    if list != [] {
      var n := |list| - 1;
      RunMarksProcessed(env, start, list[..n]);
      LiveRunTables(env, start, list[..n]);
      StepMarksProcessed(env, LiveRun(env, start, list[..n]), list[n]);
      assert (set i | 0 <= i < |list| :: list[i].id) == (set i | 0 <= i < n :: list[..n][i].id) + {list[n].id};
    }
  }

  /** Both tables look the same once the user's rows are cleared. */
  ghost predicate SameCleared(a: Db, b: Db, user: int) {
    Visible(ClearUser(a, user)) == Visible(ClearUser(b, user))
  }

  lemma StepIsOneUsers(env: Env, db: Db, s: Score)
    requires PicksMember(env.tie)
    ensures SameCleared(ProcessUserStep(env, db, s), db, s.user)
  {
    if StatKeyOf(s) in db.stats {
      PpStepKeeps(env, db, s);
      BestsOfOthers(env, db, s);
      RowsOfOthers(env, ScorePpStep(env, db, s).scores, ScorePpStep(env, db, s).totals, s);
      CountersOfOthers(env, db, s);
      hide StatsAfter, TotalsAfter, PlayCredit, ScorePpStep, MonthlyAfter, PlaysAfter;
      var a, b := ClearUser(ProcessUserStep(env, db, s), s.user), ClearUser(db, s.user);
      assert a.totals == b.totals && a.bests == b.bests;
    }
  }

  lemma CountersOfOthers(env: Env, db: Db, s: Score)
    requires StatKeyOf(s) in db.stats
    ensures var a, b := ClearUser(ProcessUserStep(env, db, s), s.user), ClearUser(db, s.user);
      a.stats == b.stats && a.monthly == b.monthly && a.plays == b.plays
  {
    PpStepKeeps(env, db, s);
    hide StatsAfter, TotalsAfter, PlayCredit, ScorePpStep;
  }

  lemma BestsOfOthers(env: Env, db: Db, s: Score)
    ensures var mid := ScorePpStep(env, db, s);
      (set r | r in mid.bests && r.key.user != s.user) == (set r | r in db.bests && r.key.user != s.user)
  {
    hide AwardedPp;
  }

  lemma RowsOfOthers(env: Env, scores: map<int, Score>, totals: set<TotalRow>, s: Score)
    requires PicksMember(env.tie)
    ensures (set r | r in TotalsAfter(env, scores, totals, s) && r.key.user != s.user) ==
      set r | r in totals && r.key.user != s.user
    ensures forall r :: r in TotalsAfter(env, scores, totals, s) ==> r in totals || r.scoreId == s.id
  {
    var rows := RowsOf(totals, KeyOf(s));
    if rows != {} { BestRowIsMaximal(env.tie, rows); }
    if WithMods(rows, s.mods) != {} { BestRowIsMaximal(env.tie, WithMods(rows, s.mods)); }
    hide BestRow, Improvement;
  }

  lemma {:induction false} RunIsOneUsers(env: Env, start: Db, list: seq<Score>, user: int)
    requires PicksMember(env.tie) && forall i :: 0 <= i < |list| ==> list[i].user == user
    ensures SameCleared(LiveRun(env, start, list), start, user)
  {
    hide ProcessUserStep, ClearUser;
    if list != [] {
      var n := |list| - 1;
      RunIsOneUsers(env, start, list[..n], user);
      StepIsOneUsers(env, LiveRun(env, start, list[..n]), list[n]);
    }
  }

  // ----- runs that differ in a score nobody refers to -----

  /** The same tables, except that `a` has lost a score that no leaderboard row refers to. */
  ghost predicate Twins(a: Db, b: Db, id: int) {
    Visible(a) == Visible(b) && a.scores == b.scores - {id} && forall r :: r in a.totals ==> r.scoreId != id
  }

  ghost predicate SameAward(env: Env, a: Db, b: Db, s: Score) {
    AwardedPp(env, StoredPp(a.storedPp, s.id), s) == AwardedPp(env, StoredPp(b.storedPp, s.id), s)
  }

  lemma SameImprovement(env: Env, a: Db, b: Db, id: int, s: Score)
    requires Twins(a, b, id) && PicksMember(env.tie)
    ensures Improvement(env, a.scores, a.totals, s) == Improvement(env, b.scores, b.totals, s)
  {
    hide DisplayScore;
    var rows := RowsOf(a.totals, KeyOf(s));
    if rows != {} { BestRowIsMaximal(env.tie, rows); }
  }

  lemma TwinsStep(env: Env, a: Db, b: Db, id: int, s: Score)
    requires Twins(a, b, id) && PicksMember(env.tie) && s.id != id
    requires SameAward(env, a, b, s)
    ensures Twins(ProcessUserStep(env, a, s), ProcessUserStep(env, b, s), id)
  {
    hide ScorePpStep, StatisticsStep, SameAward, PicksMember;
    TwinsPp(env, a, b, id, s);
    TwinsAfterStatistics(env, ScorePpStep(env, a, s), ScorePpStep(env, b, s), id, s, env.totalLength(s.beatmap));
  }

  lemma TwinsAfterStatistics(env: Env, x: Db, y: Db, id: int, s: Score, length: int)
    requires Twins(x, y, id) && PicksMember(env.tie) && s.id != id
    ensures Twins(StatisticsStep(env, x, s, length), StatisticsStep(env, y, s, length), id)
  {
    hide PlayCredit, MonthlyAfter, PlaysAfter, StatsAfter, TotalsAfter, PicksMember;
    if StatKeyOf(s) in x.stats {
      TwinsStatistics(env, x, y, id, s);
      RowsOfOthers(env, x.scores, x.totals, s);
    }
  }

  lemma TwinsStatistics(env: Env, x: Db, y: Db, id: int, s: Score)
    requires Twins(x, y, id) && PicksMember(env.tie) && StatKeyOf(s) in x.stats
    ensures TotalsAfter(env, x.scores, x.totals, s) == TotalsAfter(env, y.scores, y.totals, s)
    ensures forall credit :: StatsAfter(env, x, s, credit) == StatsAfter(env, y, s, credit)
  {
    SameImprovement(env, x, y, id, s);
    hide Improvement, CountHits, PlayStats, PpStats, GradesAfter, BestRow, RowsAfter, DisplayScore, IsRanked,
      HasLeaderboard, ScoreToLevel;
  }

  lemma TwinsPp(env: Env, a: Db, b: Db, id: int, s: Score)
    requires Twins(a, b, id)
    requires SameAward(env, a, b, s)
    ensures Twins(ScorePpStep(env, a, s), ScorePpStep(env, b, s), id)
  {
    hide AwardedPp, BestsAfter;
  }

  lemma {:induction false} TwinsRun(env: Env, a: Db, b: Db, id: int, list: seq<Score>)
    requires Twins(a, b, id) && PicksMember(env.tie)
    requires forall i, j :: 0 <= i < j < |list| ==> list[i].id != list[j].id
    requires forall i :: 0 <= i < |list| ==> list[i].id != id && SameAward(env, a, b, list[i])
    ensures Twins(LiveRun(env, a, list), LiveRun(env, b, list), id)
  {
    hide ProcessUserStep, AwardedPp, Twins;
    if list != [] {
      var n := |list| - 1;
      TwinsRun(env, a, b, id, list[..n]);
      StoredPpUntouched(env, a, list[..n], list[n].id);
      StoredPpUntouched(env, b, list[..n], list[n].id);
      TwinsStep(env, LiveRun(env, a, list[..n]), LiveRun(env, b, list[..n]), id, list[n]);
    }
  }

  // ----- deleting from a history that was processed live -----

  function Without(list: seq<Score>, id: int): seq<Score> {
    if list == [] then []
    else
      var n := |list| - 1;
      if list[n].id == id then Without(list[..n], id) else Without(list[..n], id) + [list[n]]
  }

  lemma {:induction false} WithoutMembers(list: seq<Score>, id: int)
    ensures forall s :: s in Without(list, id) <==> s in list && s.id != id
  {
    if list != [] {
      var n := |list| - 1;
      WithoutMembers(list[..n], id);
      assert list == list[..n] + [list[n]];
    }
  }

  lemma {:induction false} WithoutKeeps(list: seq<Score>, id: int)
    requires forall i, j :: 0 <= i < j < |list| ==> list[i].id != list[j].id
    ensures forall i, j :: 0 <= i < j < |Without(list, id)| ==> Without(list, id)[i].id != Without(list, id)[j].id
    ensures SortedBy(list, SCORE_ORDER) ==> SortedBy(Without(list, id), SCORE_ORDER)
  {
    if list != [] {
      var n := |list| - 1;
      WithoutKeeps(list[..n], id);
      WithoutMembers(list[..n], id);
      forall s | s in Without(list[..n], id)
        ensures s.id != list[n].id && (SortedBy(list, SCORE_ORDER) ==> SCORE_ORDER(s, list[n]))
      {
        var i :| 0 <= i < n && list[..n][i] == s;
        assert list[i] == s;
      }
    }
  }

  /** A user without aggregates or processed scores, and a history of that user in (ended_at, id) order. */
  ghost predicate FreshHistory(start: Db, list: seq<Score>, user: int) {
    && KeyedById(start) && Runnable(start, list) && SortedBy(list, SCORE_ORDER)
    && (forall i :: 0 <= i < |list| ==> list[i].user == user)
    && Visible(ClearUser(start, user)) == Visible(start) && ProcessedScores(start, user) == {}
    && (forall i, r :: 0 <= i < |list| && r in start.totals ==> r.scoreId != list[i].id)
    && (forall i, r :: 0 <= i < |list| && r in start.bests ==> r.scoreId != list[i].id)
  }

  lemma SurvivorsOfHistory(env: Env, start: Db, list: seq<Score>, user: int, id: int)
    requires FreshHistory(start, list, user)
    ensures Survivors(RemoveScore(LiveRun(env, start, list), id), user) == Without(list, id)
  {
    var left, rest := RemoveScore(LiveRun(env, start, list), id), Without(list, id);
    RunMarksProcessed(env, start, list);
    WithoutKeeps(list, id);
    WithoutMembers(list, id);
    hide Without, LiveRun;
    var rows := ProcessedScores(left, user);
    forall s ensures s in rows <==> s in rest {
      if s in rest {
        var i :| 0 <= i < |list| && list[i] == s;
        assert s.id in left.scores && s.id in left.processed;
      }
      if s in rows {
        assert s.id in start.processed ==> s in ProcessedScores(start, user);
      }
    }
    SurvivorsAreTheProcessedScores(left, user);
    hide ProcessedScores, Survivors;
    SameElements(Survivors(left, user), rest);
    StrictByIds(rest);
    SortedIsUnique(rest, Survivors(left, user), SCORE_ORDER);
  }

  lemma StrictByIds(list: seq<Score>)
    requires SortedBy(list, SCORE_ORDER) && forall i, j :: 0 <= i < j < |list| ==> list[i].id != list[j].id
    ensures StrictlySorted(list, SCORE_ORDER)
  {
    forall i, j | 0 <= i < j < |list| ensures !SCORE_ORDER(list[j], list[i]) {
      assert SCORE_ORDER(list[i], list[j]);
    }
  }

  lemma {:induction false} SameElements(a: seq<Score>, b: seq<Score>)
    requires forall s :: s in a <==> s in b
    requires forall i, j :: 0 <= i < j < |a| ==> a[i] != a[j]
    requires forall i, j :: 0 <= i < j < |b| ==> b[i].id != b[j].id
    ensures multiset(a) == multiset(b)
  {
    forall s ensures multiset(a)[s] == multiset(b)[s] {
      AtMostOnce(a, s);
      AtMostOnce(b, s);
      assert s in multiset(a) <==> s in a;
      assert s in multiset(b) <==> s in b;
    }
  }

  lemma {:induction false} AtMostOnce(a: seq<Score>, s: Score)
    requires forall i, j :: 0 <= i < j < |a| ==> a[i] != a[j]
    ensures multiset(a)[s] <= 1
  {
    if a != [] {
      var n := |a| - 1;
      AtMostOnce(a[..n], s);
      assert a == a[..n] + [a[n]];
      if a[n] == s { assert s !in a[..n]; assert s !in multiset(a[..n]); }
    }
  }

  lemma ClearedHistoryIsFresh(env: Env, start: Db, list: seq<Score>, user: int, id: int)
    requires FreshHistory(start, list, user) && PicksMember(env.tie) && exists i :: 0 <= i < |list| && list[i].id == id
    ensures Twins(ClearUser(RemoveScore(LiveRun(env, start, list), id), user), start, id)
  {
    var after := LiveRun(env, start, list);
    RunIsOneUsers(env, start, list, user);
    RunMarksProcessed(env, start, list);
    hide LiveRun, Runnable, ClearStats, ProcessedScores, SortedBy, KeyedById;
    ClearingForgets(after, start, user, id);
  }

  lemma ClearingForgets(after: Db, start: Db, user: int, id: int)
    requires Visible(ClearUser(after, user)) == Visible(start) && after.scores == start.scores
    requires (forall r :: r in start.totals ==> r.scoreId != id) && forall r :: r in start.bests ==> r.scoreId != id
    ensures Twins(ClearUser(RemoveScore(after, id), user), start, id)
  {
    hide ClearStats;
    var a, b := ClearUser(RemoveScore(after, id), user), ClearUser(after, user);
    assert a.totals == b.totals && a.bests == b.bests;
  }

  /**
   * Process a fresh user's scores in order and delete one: what shows is what processing the others alone would have
   * shown, if and only if both conditions hold of the others.
   */
  lemma DeletionUndoesProcessingIff(env: Env, start: Db, list: seq<Score>, user: int, id: int)
    requires FreshHistory(start, list, user) && PicksMember(env.tie) && exists i :: 0 <= i < |list| && list[i].id == id
    requires SaneLengths(env, Without(list, id))
    ensures var db, rest := LiveRun(env, start, list), Without(list, id);
      Visible(DeleteScore(env, db, user, id)) == Visible(LiveRun(env, start, rest)) <==>
        PpAgrees(env, RemoveScore(db, id), rest) && LengthsAgree(env, rest)
  {
    var db, rest := LiveRun(env, start, list), Without(list, id);
    var left := RemoveScore(db, id);
    SurvivorsOfHistory(env, start, list, user, id);
    HistoryIsDeletable(env, start, list, user, id);
    ClearedHistoryIsFresh(env, start, list, user, id);
    AwardsOfTheRest(env, start, list, user, id);
    hide LiveRun, Without, Survivors, PpAgrees, LengthsAgree, SaneLengths, DeleteScore, RemoveScore, ClearUser,
      SameAward, FreshHistory, HasStatRows, OwnsScore;
    TwinsRun(env, ClearUser(left, user), start, id, rest);
    DeletionIsUndoIff(env, db, user, id);
  }

  lemma AwardsOfTheRest(env: Env, start: Db, list: seq<Score>, user: int, id: int)
    requires Runnable(start, list)
    ensures var rest, cleared := Without(list, id), ClearUser(RemoveScore(LiveRun(env, start, list), id), user);
      && (forall i, j :: 0 <= i < j < |rest| ==> rest[i].id != rest[j].id)
      && (forall i :: 0 <= i < |rest| ==> rest[i].id != id && SameAward(env, cleared, start, rest[i]))
  {
    var rest, after := Without(list, id), LiveRun(env, start, list);
    WithoutKeeps(list, id);
    WithoutMembers(list, id);
    hide LiveRun, Without, AwardedPp, SortedBy, ClearStats;
    forall i | 0 <= i < |rest|
      ensures rest[i].id != id && SameAward(env, ClearUser(RemoveScore(after, id), user), start, rest[i])
    {
      assert rest[i] in rest;
      var j :| 0 <= j < |list| && list[j] == rest[i];
      StoredPpReproducesAwards(env, start, list, j);
    }
  }

  lemma HistoryIsDeletable(env: Env, start: Db, list: seq<Score>, user: int, id: int)
    requires FreshHistory(start, list, user) && exists i :: 0 <= i < |list| && list[i].id == id
    ensures var db := LiveRun(env, start, list);
      OwnsScore(db, user, id) && KeyedById(db) && HasStatRows(RemoveScore(db, id), user)
  {
    var db := LiveRun(env, start, list);
    RunMarksProcessed(env, start, list);
    LiveRunTables(env, start, list);
    hide LiveRun;
    forall s | s in ProcessedScores(RemoveScore(db, id), user) ensures StatKeyOf(s) in db.stats {
      assert s.id in start.processed ==> s in ProcessedScores(start, user);
    }
  }

  // ----- histories that meet these conditions -----

  /** A database that returns some tied row. */
  ghost function SomeRow(rows: set<TotalRow>): TotalRow {
    if r :| r in rows then r else TotalRow(Key(0, 0, Osu), 0, 0, F, {})
  }

  /** Every map is ranked, lasts 120 seconds of which 90 are drain time, and every play is worth nothing. */
  ghost function LongMaps(): Env {
    Env(Settings(Standardised, false, false), (_: int) => Policy(true, true, true), {},
        (_: Score) => true, (_: Score) => Some(0.0), (_: int) => 120, (_: int) => 90, SomeRow)
  }

  /** Two plays of one map, one of 100 and one of 90 seconds. */
  function TwoPlays(): seq<Score> {
    [HundredCircles(1, 600000).(elapsed := 100.0), HundredCircles(2, 600001)]
  }

  function NewUser(): Db {
    Db(map[1 := TwoPlays()[0], 2 := TwoPlays()[1]], map[], {}, {}, {},
       map[StatKey(1, Osu) := FRESH_STATS], map[], map[])
  }

  function BothProcessed(): Db { NewUser().(processed := {1, 2}) }

  /** `FreshHistory` and the other conditions of `DeletionUndoesProcessingIff` can be met. */
  lemma TwoPlaysAreAFreshHistory()
    ensures FreshHistory(NewUser(), TwoPlays(), 1) && PicksMember(LongMaps().tie)
    ensures SaneLengths(LongMaps(), Without(TwoPlays(), 2)) && TwoPlays()[1].id == 2
  {
    NothingToClear();
    TwoPlaysAreARun();
    hide Runnable, Visible, ClearUser, KeyedById, SortedBy;
    assert ProcessedScores(NewUser(), 1) == {};
    hide ProcessedScores;
    WithoutMembers(TwoPlays(), 2);
    RatesArePositive();
  }

  lemma NothingToClear()
    ensures Visible(ClearUser(NewUser(), 1)) == Visible(NewUser())
  {
    assert ClearStats(NewUser().stats, 1) == NewUser().stats;
  }

  lemma TwoPlaysAreARun()
    ensures KeyedById(NewUser()) && Runnable(NewUser(), TwoPlays()) && SortedBy(TwoPlays(), SCORE_ORDER)
  {}

  lemma RatesArePositive()
    ensures TwoPlays()[0].speedRate == TwoPlays()[1].speedRate == 1.0
  {}

  lemma OneLeft()
    ensures ProcessedScores(RemoveScore(BothProcessed(), 2), 1) == {TwoPlays()[0]}
  {
    var left, first := RemoveScore(BothProcessed(), 2), TwoPlays()[0];
    assert left.scores == map[1 := first] && left.processed == {1};
    assert 1 in left.scores && left.scores[1].user == 1;
  }

  lemma FirstPlaySurvives()
    ensures Deletable(LongMaps(), BothProcessed(), 1, 2)
    ensures forall t :: t in Survivors(RemoveScore(BothProcessed(), 2), 1) <==> t == TwoPlays()[0]
  {
    OneLeft();
    TwoPlaysAreARun();
    assert OwnsScore(BothProcessed(), 1, 2) && StatKeyOf(TwoPlays()[0]) == StatKey(1, Osu);
    RatesArePositive();
    hide ProcessedScores, Survivors, TwoPlays;
    var list := Survivors(RemoveScore(BothProcessed(), 2), 1);
    SurvivorsAreTheProcessedScores(RemoveScore(BothProcessed(), 2), 1);
    forall i | 0 <= i < |list| ensures list[i] == TwoPlays()[0] { assert list[i] in list; }
  }

  /** Deleting the second of the two plays is no undo, as the first one's play time changes. */
  lemma DrainTimeCase()
    ensures !UndoIsExact(LongMaps(), BothProcessed(), 1, 2)
  {
    hide Survivors, UndoIsExact, Deletable;
    FirstPlaySurvives();
    DrainTimeBreaksUndo(LongMaps(), BothProcessed(), 1, 2, TwoPlays()[0]);
  }

  /** Nor would it be one if the lengths were equal, as the first one's award of nothing is not made again. */
  lemma WorthlessPlayCase()
    ensures var env := LongMaps().(hitLength := LongMaps().totalLength);
      Deletable(env, BothProcessed(), 1, 2) && !UndoIsExact(env, BothProcessed(), 1, 2)
  {
    hide Survivors, UndoIsExact, Deletable;
    var env := LongMaps().(hitLength := LongMaps().totalLength);
    FirstPlaySurvives();
    EqualLengthsAreSane(env);
    WorthlessPlayBreaksUndo(env, BothProcessed(), 1, 2, TwoPlays()[0]);
  }

  lemma EqualLengthsAreSane(env: Env)
    requires env == LongMaps().(hitLength := LongMaps().totalLength)
    ensures Deletable(env, BothProcessed(), 1, 2)
  {
    hide Survivors;
    FirstPlaySurvives();
  }
}
