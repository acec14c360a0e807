/** Whole runs of `process_user`, and what the single tables make of them. */
module EngineRuns {
  import opened Wrappers
  import opened ScoreModel
  import opened ScoreEngine
  import opened LeaderboardIndex

  /** Scores processed one after the other under fixed policies. */
  ghost function LiveRun(env: Env, start: Db, list: seq<Score>): Db {
    if list == [] then start
    else ProcessUserStep(env, LiveRun(env, start, list[..|list| - 1]), list[|list| - 1])
  }

  function Steps(env: Env, list: seq<Score>): seq<Step> {
    seq(|list|, i requires 0 <= i < |list| => Step(env, list[i]))
  }

  /** Every score is in the scores table under its own id, ids are distinct, and statistics rows exist. */
  ghost predicate Runnable(db: Db, list: seq<Score>) {
    && (forall i :: 0 <= i < |list| ==> list[i].id in db.scores && db.scores[list[i].id] == list[i])
    && (forall i, j :: 0 <= i < j < |list| ==> list[i].id != list[j].id)
    && (forall i :: 0 <= i < |list| ==> StatKeyOf(list[i]) in db.stats)
  }

  /** The pp step touches only the pp column and the pp rows. */
  lemma PpStepKeeps(env: Env, db: Db, s: Score)
    ensures var after := ScorePpStep(env, db, s);
      after.scores == db.scores && after.totals == db.totals && after.stats == db.stats &&
      after.monthly == db.monthly && after.plays == db.plays
  {
    hide AwardedPp, BestsAfter;
  }

  /** A run leaves the scores table alone and its leaderboard rows are those of the index run. */
  lemma {:induction false} LiveRunTables(env: Env, start: Db, list: seq<Score>)
    requires Runnable(start, list)
    ensures LiveRun(env, start, list).scores == start.scores
    ensures LiveRun(env, start, list).stats.Keys == start.stats.Keys
    ensures LiveRun(env, start, list).totals == TotalsRun(start.scores, start.totals, Steps(env, list))
  {
    hide StatsAfter, TotalsAfter, MonthlyAfter, PlaysAfter, PlayCredit, ScorePpStep;
    if list != [] {
      var n := |list| - 1;
      LiveRunTables(env, start, list[..n]);
      PpStepKeeps(env, LiveRun(env, start, list[..n]), list[n]);
      assert Steps(env, list)[..n] == Steps(env, list[..n]);
    }
  }

  lemma StepsAreWellFormed(env: Env, start: Db, list: seq<Score>)
    requires Runnable(start, list) && PicksMember(env.tie)
    ensures WellFormedRun(start.scores, Steps(env, list))
  {
  }

  /** The plays of one key in a run under fixed policies. */
  function PlaysOf(env: Env, list: seq<Score>, key: Key): seq<Score> { Plays(Steps(env, list), key) }

  lemma PlaysOfStep(env: Env, list: seq<Score>, key: Key)
    requires list != []
    ensures var n := |list| - 1;
      PlaysOf(env, list, key) == PlaysOf(env, list[..n], key) +
        (if Counts(Step(env, list[n]), key) then [list[n]] else [])
  {
    var n := |list| - 1;
    assert Steps(env, list)[..n] == Steps(env, list[..n]);
  }
}
