/**
 * Processing one score: the leaderboard rows, the pp rows, the statistics record and the play counters.
 * The functions say what one transaction makes of the tables; the class does it field by field.
 */
module ScoreEngine {
  import opened Wrappers
  import opened ScoreModel
  import opened Ordering
  import opened PpArithmetic
  import opened LevelCurve

  /**
   * What a transaction reads but does not change. `tie` is the database's free choice among rows that an
   * ORDER BY leaves tied; `canGetPp` and `calculatedPp` stand for the mod rules and the pp calculator.
   */
  datatype Env = Env(
    settings: Settings, policy: int -> Policy, negative: set<int>,
    canGetPp: Score -> bool, calculatedPp: Score -> Option<real>,
    totalLength: int -> int, hitLength: int -> int,
    tie: set<TotalRow> -> TotalRow)

  datatype StatKey = StatKey(user: int, mode: GameMode)
  datatype MonthKey = MonthKey(user: int, month: Month)
  datatype PlayKey = PlayKey(user: int, beatmap: int)

  datatype Stats = Stats(
    count300: int, count100: int, count50: int, countMiss: int, totalHits: int,
    pp: real, hitAccuracy: real, rankedScore: int, totalScore: int, levelCurrent: real,
    maximumCombo: int, playCount: int, playTime: int, replaysWatched: int, grades: map<Rank, int>)

  const NO_GRADES: map<Rank, int> := map[XH := 0, X := 0, SH := 0, S := 0, A := 0, B := 0, C := 0, D := 0]
  const FRESH_STATS := Stats(0, 0, 0, 0, 0, 0.0, 0.0, 0, 0, 1.0, 0, 0, 0, 0, NO_GRADES)

  /** The tables. `storedPp` is the pp column of the scores table, `processed` its processed flag. */
  datatype Db = Db(
    scores: map<int, Score>, storedPp: map<int, real>, processed: set<int>,
    totals: set<TotalRow>, bests: set<PpRow>,
    stats: map<StatKey, Stats>, monthly: map<MonthKey, int>, plays: map<PlayKey, int>)

  // ----- eligibility -----

  datatype Eligibility = Eligibility(leaderboard: bool, ranked: bool, rankedScore: bool)

  /** What `process_score` writes on a new score. */
  function SnapshotEligibility(settings: Settings, policy: Policy, checksumMatches: bool): Eligibility {
    var leaderboard := checksumMatches && (policy.leaderboardEnabled || settings.allBeatmapLeaderboard);
    Eligibility(
      leaderboard,
      checksumMatches && (policy.ppEnabled || settings.allBeatmapPp),
      checksumMatches && ((policy.statusRanked && leaderboard) || settings.allBeatmapPp))
  }

  predicate HasPp(env: Env, s: Score) {
    s.ranked && (env.policy(s.beatmap).ppEnabled || env.settings.allBeatmapPp)
  }

  predicate HasLeaderboard(env: Env, s: Score) {
    s.leaderboardEligible && (env.policy(s.beatmap).leaderboardEnabled || env.settings.allBeatmapLeaderboard)
  }

  predicate IsRanked(env: Env, s: Score) {
    s.rankedScoreEligible &&
    ((env.policy(s.beatmap).statusRanked && HasLeaderboard(env, s)) || env.settings.allBeatmapPp)
  }

  // ----- leaderboard rows -----

  function RowsOf(totals: set<TotalRow>, key: Key): set<TotalRow> { set r | r in totals && r.key == key }

  function WithMods(rows: set<TotalRow>, mods: set<string>): set<TotalRow> { set r | r in rows && r.mods == mods }

  function Tops(rows: set<TotalRow>): set<TotalRow> {
    set r | r in rows && forall q | q in rows :: q.totalScore <= r.totalScore
  }

  /** The database returns one of the tied rows. */
  ghost predicate PicksMember(tie: set<TotalRow> -> TotalRow) {
    forall rows: set<TotalRow> :: rows != {} ==> tie(rows) in rows
  }

  lemma {:induction false} TopsExist(rows: set<TotalRow>)
    requires rows != {}
    ensures Tops(rows) != {}
  {
    var r :| r in rows;
    if rows == {r} {
      assert r in Tops(rows);
    } else {
      var rest := rows - {r};
      TopsExist(rest);
      var top :| top in Tops(rest);
      var winner := if top.totalScore >= r.totalScore then top else r;
      assert forall q :: q in rows ==> q == r || q in rest;
      assert winner in Tops(rows);
    }
  }

  lemma BestRowIsMaximal(tie: set<TotalRow> -> TotalRow, rows: set<TotalRow>)
    requires PicksMember(tie) && rows != {}
    ensures BestRow(tie, rows).Some? && BestRow(tie, rows).value in rows
    ensures forall r :: r in rows ==> r.totalScore <= BestRow(tie, rows).value.totalScore
  {
    TopsExist(rows);
    assert tie(Tops(rows)) in Tops(rows);
  }

  /** First row of ORDER BY total_score DESC. */
  function BestRow(tie: set<TotalRow> -> TotalRow, rows: set<TotalRow>): Option<TotalRow> {
    if rows == {} then None else Some(tie(Tops(rows)))
  }

  /** Display score of the score a row refers to (a foreign key guarantees the score exists). */
  function DisplayOf(mode: ScoringMode, scores: map<int, Score>, row: Option<TotalRow>): int {
    if row.Some? && row.value.scoreId in scores then DisplayScore(mode, scores[row.value.scoreId]) else 0
  }

  /** The four cases of the row update, on the rows of the score's own user, beatmap and mode. */
  function RowsAfter(
      rows: set<TotalRow>, best: Option<TotalRow>, bestMod: Option<TotalRow>, difference: int, s: Score): set<TotalRow>
  {
    if best.None? || bestMod.None? then rows + {TotalRowFor(s)}
    else
      var b, m := best.value, bestMod.value;
      if b.scoreId == m.scoreId then
        if difference > 0 then rows - {b} + {b.(totalScore := s.totalScore, rank := s.rank, scoreId := s.id)} else rows
      else
        var kept := if difference > 0 then rows - {b} else rows;
        if s.totalScore - m.totalScore > 0 then
          kept - {m} + {m.(totalScore := s.totalScore, rank := s.rank, scoreId := s.id)}
        else kept
  }

  /** Improvement over the row the engine compares with, in the configured display mode. */
  function Improvement(env: Env, scores: map<int, Score>, totals: set<TotalRow>, s: Score): int {
    var best := BestRow(env.tie, RowsOf(totals, KeyOf(s)));
    DisplayScore(env.settings.scoringMode, s) - DisplayOf(env.settings.scoringMode, scores, best)
  }

  function TotalsAfter(env: Env, scores: map<int, Score>, totals: set<TotalRow>, s: Score): set<TotalRow> {
    if !s.passed || !HasLeaderboard(env, s) then totals
    else
      var rows := RowsOf(totals, KeyOf(s));
      totals - rows + RowsAfter(rows, BestRow(env.tie, rows), BestRow(env.tie, WithMods(rows, s.mods)),
                                Improvement(env, scores, totals, s), s)
  }

  // ----- play time -----

  /** Python's `int`: towards zero. */
  function Truncate(x: real): int { if x >= 0.0 then x.Floor else -((-x).Floor) }

  function PlayLength(s: Score, beatmapLength: int): int {
    var length := if s.speedRate == 0.0 then beatmapLength as real else beatmapLength as real / s.speedRate;
    Truncate(if length < s.elapsed then length else s.elapsed)
  }

  function ObjectsHit(h: Hits): nat {
    h.n300 + h.n100 + h.n50 + h.ngeki + h.nkatu + h.largeTickHit + h.largeTickMiss + h.sliderTailHit + h.smallTickHit
  }

  predicate ValidPlay(s: Score, length: int) {
    s.passed ||
    (length > 8 && s.totalScore >= 5000 &&
     ObjectsHit(s.hits) as real >=
       (if 0.1 * s.scorableTotal as real < 20.0 then 0.1 * s.scorableTotal as real else 20.0))
  }

  /** Play time credited for a score, or None when the play does not count. */
  function PlayCredit(s: Score, beatmapLength: int): Option<int> {
    var length := PlayLength(s, beatmapLength);
    if ValidPlay(s, length) then Some(length) else None
  }

  // ----- statistics -----

  /** `change_grade_count`; rank F has no counter. */
  function AdjustGrade(grades: map<Rank, int>, rank: Rank, delta: int): map<Rank, int> {
    if rank in grades then grades[rank := if grades[rank] + delta < 0 then 0 else grades[rank] + delta] else grades
  }

  function GradesAfter(grades: map<Rank, int>, best: Option<TotalRow>, s: Score): map<Rank, int> {
    var added := AdjustGrade(grades, s.rank, 1);
    if best.Some? then AdjustGrade(added, best.value.rank, -1) else added
  }

  function HitTotal(h: Hits): nat {
    h.n300 + h.n100 + h.n50 + h.ngeki + h.nkatu + h.largeTickHit + h.largeTickMiss + h.smallTickHit
  }

  function CountHits(st: Stats, s: Score): Stats {
    var h := s.hits;
    var fruits := s.mode == Fruits || s.mode == FruitsRx;
    st.(count300 := st.count300 + h.n300 + h.ngeki,
        count100 := st.count100 + h.n100 + h.nkatu + (if fruits then h.largeTickHit else 0),
        count50 := st.count50 + h.n50 + (if fruits then h.smallTickHit else 0),
        countMiss := st.countMiss + h.nmiss + (if fruits then h.largeTickMiss else 0),
        totalHits := st.totalHits + HitTotal(h))
  }

  /** Total score, grades, ranked score, level and combo. */
  function ScoreStats(env: Env, scores: map<int, Score>, totals: set<TotalRow>, st: Stats, s: Score): Stats {
    var total := st.totalScore + DisplayScore(env.settings.scoringMode, s);
    var difference := Improvement(env, scores, totals, s);
    var counted := s.passed && IsRanked(env, s);
    var improved := difference > 0 && counted;
    st.(totalScore := total,
        grades := if improved then GradesAfter(st.grades, BestRow(env.tie, RowsOf(totals, KeyOf(s))), s) else st.grades,
        rankedScore := if improved then st.rankedScore + difference else st.rankedScore,
        levelCurrent := if improved then ScoreToLevel(total as real) else st.levelCurrent,
        maximumCombo := if counted && s.maxCombo > st.maximumCombo then s.maxCombo else st.maximumCombo)
  }

  function PlayStats(st: Stats, credit: Option<int>): Stats {
    if credit.None? then st else st.(playCount := st.playCount + 1, playTime := st.playTime + credit.value)
  }

  function StatKeyOf(s: Score): StatKey { StatKey(s.user, s.mode) }

  ghost function PpStats(env: Env, bests: set<PpRow>, st: Stats, s: Score): Stats {
    if s.passed && HasPp(env, s)
    then st.(pp := UserPp(bests, s.user, s.mode, env.negative), hitAccuracy := UserAccuracy(bests, s.user, s.mode))
    else st
  }

  ghost function StatsAfter(env: Env, db: Db, s: Score, credit: Option<int>): Stats
    requires StatKeyOf(s) in db.stats
  {
    var scored := ScoreStats(env, db.scores, db.totals, db.stats[StatKeyOf(s)], s);
    PpStats(env, db.bests, CountHits(PlayStats(scored, credit), s), s)
  }

  function Count<K>(table: map<K, int>, key: K): int { if key in table then table[key] else 0 }

  /** The month's row is created even by a play that does not count. */
  function MonthlyAfter(monthly: map<MonthKey, int>, s: Score, credit: Option<int>): map<MonthKey, int> {
    var key := MonthKey(s.user, s.playMonth);
    monthly[key := Count(monthly, key) + (if credit.Some? then 1 else 0)]
  }

  function PlaysAfter(plays: map<PlayKey, int>, s: Score, credit: Option<int>): map<PlayKey, int> {
    var key := PlayKey(s.user, s.beatmap);
    if credit.Some? then plays[key := Count(plays, key) + 1] else plays
  }

  /** `_process_statistics`; without a statistics row it raises, and nothing is kept. */
  ghost function StatisticsStep(env: Env, db: Db, s: Score, beatmapLength: int): Db {
    if StatKeyOf(s) !in db.stats then db
    else
      var credit := PlayCredit(s, beatmapLength);
      db.(totals := TotalsAfter(env, db.scores, db.totals, s),
          stats := db.stats[StatKeyOf(s) := StatsAfter(env, db, s, credit)],
          monthly := MonthlyAfter(db.monthly, s, credit),
          plays := PlaysAfter(db.plays, s, credit))
  }

  // ----- pp rows -----

  function StoredPp(stored: map<int, real>, id: int): real { if id in stored then stored[id] else 0.0 }

  /** The pp that processing awards, or None when the score earns none or the calculator failed. */
  function AwardedPp(env: Env, stored: real, s: Score): Option<real> {
    if !(HasPp(env, s) && s.passed && env.canGetPp(s)) then None
    else if stored != 0.0 then Some(stored)
    else env.calculatedPp(s)
  }

  function PpRowsOf(bests: set<PpRow>, key: Key): set<PpRow> { set r | r in bests && r.key == key }

  /** A strictly better pp replaces the row of its beatmap and mode. */
  function BestsAfter(bests: set<PpRow>, s: Score, awarded: Option<real>): set<PpRow> {
    var previous := PpRowsOf(bests, KeyOf(s));
    if awarded.Some? && forall r | r in previous :: awarded.value > r.pp
    then bests - previous + {PpRowFor(s, awarded.value)}
    else bests
  }

  /** `_process_score_pp` as `process_user` calls it. */
  function ScorePpStep(env: Env, db: Db, s: Score): Db {
    if !HasPp(env, s) then db
    else if !(s.passed && env.canGetPp(s)) then db.(storedPp := db.storedPp[s.id := 0.0])
    else
      var awarded := AwardedPp(env, StoredPp(db.storedPp, s.id), s);
      if awarded.None? then db
      else db.(storedPp := db.storedPp[s.id := awarded.value], bests := BestsAfter(db.bests, s, awarded))
  }

  /** `process_user`: pp first, then statistics, then the processed mark, in one transaction. */
  ghost function ProcessUserStep(env: Env, db: Db, s: Score): Db {
    if StatKeyOf(s) !in db.stats then db
    else
      var done := StatisticsStep(env, ScorePpStep(env, db, s), s, env.totalLength(s.beatmap));
      done.(processed := done.processed + {s.id})
  }

  // ----- the stored tables -----

  ghost predicate OnePpRowPerKey(bests: set<PpRow>) {
    forall r, q :: r in bests && q in bests && r.key == q.key ==> r == q
  }

  class GameplayStore {
    const env: Env
    var scores: map<int, Score>
    var storedPp: map<int, real>
    var processed: set<int>
    var totals: set<TotalRow>
    var bests: set<PpRow>
    var stats: map<StatKey, Stats>
    var monthly: map<MonthKey, int>
    var plays: map<PlayKey, int>

    constructor (env: Env)
      requires PicksMember(env.tie)
      ensures this.env == env && Valid()
      ensures Snapshot() == Db(map[], map[], {}, {}, {}, map[], map[], map[])
    {
      this.env := env;
      scores, storedPp, processed, totals, bests := map[], map[], {}, {}, {};
      stats, monthly, plays := map[], map[], map[];
    }

    ghost function Snapshot(): Db
      reads this
    {
      Db(scores, storedPp, processed, totals, bests, stats, monthly, plays)
    }

    /** The keys of the pp table, and a database that answers its queries. */
    ghost predicate Valid()
      reads this
    {
      DistinctScores(bests) && OnePpRowPerKey(bests) && PicksMember(env.tie)
    }

    /** Total score, grades, ranked score, level and combo of one play. */
    method ScoreStatistics(
        s: Score, st: Stats, best: Option<TotalRow>, current: int, difference: int) returns (t: Stats)
      requires best == BestRow(env.tie, RowsOf(totals, KeyOf(s)))
      requires current == DisplayScore(env.settings.scoringMode, s) && difference == Improvement(env, scores, totals, s)
      ensures t == ScoreStats(env, scores, totals, st, s)
    {
      hide BestRow, RowsOf, DisplayScore, Improvement, IsRanked, AdjustGrade, ScoreToLevel;
      var ranked := IsRanked(env, s);
      t := st.(totalScore := st.totalScore + current);
      if difference > 0 && s.passed && ranked {
        t := t.(grades := AdjustGrade(t.grades, s.rank, 1));
        if best.Some? { t := t.(grades := AdjustGrade(t.grades, best.value.rank, -1)); }
        t := t.(rankedScore := t.rankedScore + difference, levelCurrent := ScoreToLevel(t.totalScore as real));
      }
      if s.passed && ranked && s.maxCombo > t.maximumCombo { t := t.(maximumCombo := s.maxCombo); }
    }

    /** Only a passed play on a map with pp recalculates the user's pp and accuracy. */
    method PpStatistics(s: Score, st: Stats) returns (t: Stats)
      requires DistinctScores(bests)
      ensures t == PpStats(env, bests, st, s)
    {
      hide PpSum, HitAccuracy, BestPpRows, DistinctScores;
      t := st;
      if s.passed && HasPp(env, s) {
        var bps := GetUserBestPp(bests, s.user, s.mode);
        var pp, acc := CalculateUserPp(bps, env.negative);
        t := t.(pp := pp, hitAccuracy := acc);
      }
    }

    /** Fails, and changes nothing, exactly when the user has no statistics row for the mode. */
    method ProcessStatistics(s: Score, beatmapLength: int) returns (ok: bool)
      requires Valid()
      modifies this
      ensures Valid() && ok == (StatKeyOf(s) in old(stats))
      ensures Snapshot() == StatisticsStep(env, old(Snapshot()), s, beatmapLength)
    {
      hide BestRow, RowsOf, WithMods, DisplayScore, DisplayOf, TotalsAfter, ScoreStats, PpStats, CountHits, PlayStats,
        MonthlyAfter, PlaysAfter, PlayCredit, OnePpRowPerKey, PicksMember, DistinctScores;
      var statKey := StatKeyOf(s);
      if statKey !in stats { return false; }
      var rows := RowsOf(totals, KeyOf(s));
      var best, bestMod := BestRow(env.tie, rows), BestRow(env.tie, WithMods(rows, s.mods));
      var mode := env.settings.scoringMode;
      var current, previous := DisplayScore(mode, s), DisplayOf(mode, scores, best);
      var st := ScoreStatistics(s, stats[statKey], best, current, current - previous);
      UpdateTotals(s, rows, best, bestMod, current - previous);
      var credit := PlayCredit(s, beatmapLength);
      st := CountHits(PlayStats(st, credit), s);
      monthly := MonthlyAfter(monthly, s, credit);
      plays := PlaysAfter(plays, s, credit);
      st := PpStatistics(s, st);
      stats := stats[statKey := st];
      ok := true;
    }

    /** The leaderboard rows: add, update in place, or delete and update. */
    method UpdateTotals(
        s: Score, rows: set<TotalRow>, best: Option<TotalRow>, bestMod: Option<TotalRow>, difference: int)
      requires rows == RowsOf(totals, KeyOf(s))
      requires best == BestRow(env.tie, rows) && bestMod == BestRow(env.tie, WithMods(rows, s.mods))
      requires difference == Improvement(env, scores, totals, s)
      requires PicksMember(env.tie)
      modifies this`totals
      ensures totals == TotalsAfter(env, scores, old(totals), s)
    {
      if s.passed && HasLeaderboard(env, s) {
        if rows != {} { BestRowIsMaximal(env.tie, rows); }
        if WithMods(rows, s.mods) != {} { BestRowIsMaximal(env.tie, WithMods(rows, s.mods)); }
        hide BestRow;
        if best.None? || bestMod.None? {
          totals := totals + {TotalRowFor(s)};
        } else if best.value.scoreId == bestMod.value.scoreId {
          if difference > 0 {
            totals := totals - {best.value} +
              {best.value.(totalScore := s.totalScore, rank := s.rank, scoreId := s.id)};
          }
        } else {
          if difference > 0 { totals := totals - {best.value}; }
          if s.totalScore - bestMod.value.totalScore > 0 {
            totals := totals - {bestMod.value} +
              {bestMod.value.(totalScore := s.totalScore, rank := s.rank, scoreId := s.id)};
          }
        }
      }
    }

    /** Returns whether pp is settled; a failed calculation leaves the score to a later retry. */
    method ProcessScorePp(s: Score) returns (ready: bool)
      requires Valid() && HasPp(env, s)
      requires forall r :: r in bests && r.scoreId == s.id ==> r.key == KeyOf(s)
      modifies this`storedPp, this`bests
      ensures Valid() && Snapshot() == ScorePpStep(env, old(Snapshot()), s)
      ensures ready == (s.passed && env.canGetPp(s) ==>
        AwardedPp(env, StoredPp(old(storedPp), s.id), s).Some?)
    {
      if !(s.passed && env.canGetPp(s)) {
        storedPp := storedPp[s.id := 0.0];
        return true;
      }
      var pp := if s.id in storedPp then storedPp[s.id] else 0.0;
      if pp == 0.0 {
        var calculated := env.calculatedPp(s);
        if calculated.None? { return false; }
        pp := calculated.value;
      }
      storedPp := storedPp[s.id := pp];
      var previous := PpRowsOf(bests, KeyOf(s));
      if previous == {} {
        bests := bests + {PpRowFor(s, pp)};
      } else {
        var row :| row in previous;
        assert previous == {row};
        if pp > row.pp { bests := bests - {row} + {PpRowFor(s, pp)}; }
      }
      ready := true;
    }

    /** One score, start to finish, in one transaction. */
    method ProcessUser(s: Score) returns (ok: bool)
      requires Valid()
      requires forall r :: r in bests && r.scoreId == s.id ==> r.key == KeyOf(s)
      modifies this
      ensures Valid() && ok == (StatKeyOf(s) in old(stats))
      ensures Snapshot() == ProcessUserStep(env, old(Snapshot()), s)
    {
      if StatKeyOf(s) !in stats { return false; }
      if HasPp(env, s) { var ready := ProcessScorePp(s); }
      ok := ProcessStatistics(s, env.totalLength(s.beatmap));
      processed := processed + {s.id};
    }
  }
}
