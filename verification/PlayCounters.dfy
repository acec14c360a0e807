/** The additive counters of a user are folds over the processed plays. */
module PlayCounters {
  import opened Wrappers
  import opened ScoreModel
  import opened ScoreEngine
  import opened EngineRuns
  import opened PpArithmetic
  import opened RankedScore

  // ----- counters of the statistics row -----

  datatype Counter = TotalScore | Great | Good | Meh | Misses | AllHits

  function Value(c: Counter, st: Stats): int {
    match c
    case TotalScore => st.totalScore
    case Great => st.count300
    case Good => st.count100
    case Meh => st.count50
    case Misses => st.countMiss
    case AllHits => st.totalHits
  }

  predicate IsFruits(s: Score) { s.mode == Fruits || s.mode == FruitsRx }

  /** What one play adds; in the fruits modes ticks count among the hits. */
  function Gain(env: Env, c: Counter, s: Score): int {
    match c
    case TotalScore => DisplayScore(env.settings.scoringMode, s)
    case Great => s.hits.n300 + s.hits.ngeki
    case Good => s.hits.n100 + s.hits.nkatu + if IsFruits(s) then s.hits.largeTickHit else 0
    case Meh => s.hits.n50 + if IsFruits(s) then s.hits.smallTickHit else 0
    case Misses => s.hits.nmiss + if IsFruits(s) then s.hits.largeTickMiss else 0
    case AllHits => HitTotal(s.hits)
  }

  function GainSum(env: Env, c: Counter, list: seq<Score>, k: StatKey): int {
    if list == [] then 0
    else
      var n := |list| - 1;
      GainSum(env, c, list[..n], k) + (if StatKeyOf(list[n]) == k then Gain(env, c, list[n]) else 0)
  }

  /** Hits of a play that none of the three hit counters shows. */
  function HiddenTicks(s: Score): int {
    if IsFruits(s) then s.hits.largeTickMiss
    else s.hits.largeTickHit + s.hits.largeTickMiss + s.hits.smallTickHit
  }

  function HiddenSum(list: seq<Score>, k: StatKey): int {
    if list == [] then 0
    else
      var n := |list| - 1;
      HiddenSum(list[..n], k) + (if StatKeyOf(list[n]) == k then HiddenTicks(list[n]) else 0)
  }

  lemma ScoreStatsGain(env: Env, scores: map<int, Score>, totals: set<TotalRow>, st: Stats, s: Score, c: Counter)
    ensures Value(c, ScoreStats(env, scores, totals, st, s)) ==
      Value(c, st) + if c.TotalScore? then Gain(env, c, s) else 0
  {
    hide Improvement, DisplayScore, IsRanked, GradesAfter, BestRow;
  }

  lemma RestGain(env: Env, bests: set<PpRow>, st: Stats, s: Score, credit: Option<int>, c: Counter)
    ensures Value(c, PpStats(env, bests, CountHits(PlayStats(st, credit), s), s)) ==
      Value(c, st) + if c.TotalScore? then 0 else Gain(env, c, s)
  {
    hide UserPp, UserAccuracy, HasPp, DisplayScore;
  }

  lemma StepGain(env: Env, db: Db, s: Score, k: StatKey, c: Counter)
    requires k in db.stats && StatKeyOf(s) in db.stats
    ensures k in ProcessUserStep(env, db, s).stats
    ensures Value(c, ProcessUserStep(env, db, s).stats[k]) ==
      Value(c, db.stats[k]) + if StatKeyOf(s) == k then Gain(env, c, s) else 0
  {
    hide ScorePpStep, TotalsAfter, MonthlyAfter, PlaysAfter, PlayCredit, Value, Gain, ScoreStats, PpStats, CountHits,
      PlayStats;
    PpStepKeeps(env, db, s);
    var mid, credit := ScorePpStep(env, db, s), PlayCredit(s, env.totalLength(s.beatmap));
    var scored := ScoreStats(env, mid.scores, mid.totals, mid.stats[StatKeyOf(s)], s);
    ScoreStatsGain(env, mid.scores, mid.totals, mid.stats[StatKeyOf(s)], s, c);
    RestGain(env, mid.bests, scored, s, credit, c);
  }

  /** After any run each counter is what it was plus the sum over the row's plays. */
  lemma {:induction false} CountersAreSums(env: Env, start: Db, list: seq<Score>, k: StatKey, c: Counter)
    requires Runnable(start, list) && k in start.stats
    ensures k in LiveRun(env, start, list).stats
    ensures Value(c, LiveRun(env, start, list).stats[k]) == Value(c, start.stats[k]) + GainSum(env, c, list, k)
  {
    hide ProcessUserStep, Value, Gain;
    LiveRunTables(env, start, list);
    if list != [] {
      var n := |list| - 1;
      CountersAreSums(env, start, list[..n], k, c);
      LiveRunTables(env, start, list[..n]);
      StepGain(env, LiveRun(env, start, list[..n]), list[n], k, c);
    }
  }

  lemma {:induction false} GainsBalance(env: Env, list: seq<Score>, k: StatKey)
    ensures GainSum(env, AllHits, list, k) ==
      GainSum(env, Great, list, k) + GainSum(env, Good, list, k) + GainSum(env, Meh, list, k) + HiddenSum(list, k)
  {
    if list != [] { GainsBalance(env, list[..|list| - 1], k); }
  }

  /** From a fresh row the total of hits is the three hit counters plus the ticks that none of them shows. */
  lemma HitsBalance(env: Env, start: Db, list: seq<Score>, k: StatKey)
    requires Runnable(start, list) && k in start.stats && start.stats[k] == FRESH_STATS
    ensures k in LiveRun(env, start, list).stats
    ensures var st := LiveRun(env, start, list).stats[k];
      st.totalHits == st.count300 + st.count100 + st.count50 + HiddenSum(list, k)
  {
    hide LiveRun, GainSum, HiddenSum, Runnable;
    CountersAreSums(env, start, list, k, AllHits);
    CountersAreSums(env, start, list, k, Great);
    CountersAreSums(env, start, list, k, Good);
    CountersAreSums(env, start, list, k, Meh);
    GainsBalance(env, list, k);
  }

  // ----- play counts in three tables -----

  datatype Table = ByMode(k: StatKey) | ByMonth(m: MonthKey) | ByBeatmap(p: PlayKey)

  ghost function PlayCounter(db: Db, t: Table): int
    requires t.ByMode? ==> t.k in db.stats
  {
    match t
    case ByMode(k) => db.stats[k].playCount
    case ByMonth(m) => Count(db.monthly, m)
    case ByBeatmap(p) => Count(db.plays, p)
  }

  predicate Under(s: Score, t: Table) {
    match t
    case ByMode(k) => StatKeyOf(s) == k
    case ByMonth(m) => MonthKey(s.user, s.playMonth) == m
    case ByBeatmap(p) => PlayKey(s.user, s.beatmap) == p
  }

  predicate ValidLivePlay(env: Env, s: Score) { PlayCredit(s, env.totalLength(s.beatmap)).Some? }

  function ValidPlays(env: Env, list: seq<Score>, t: Table): nat {
    if list == [] then 0
    else
      var n := |list| - 1;
      ValidPlays(env, list[..n], t) + (if Under(list[n], t) && ValidLivePlay(env, list[n]) then 1 else 0)
  }

  lemma PlayStatsOnly(env: Env, db: Db, s: Score, credit: Option<int>)
    requires StatKeyOf(s) in db.stats
    ensures StatsAfter(env, db, s, credit).playCount == db.stats[StatKeyOf(s)].playCount + if credit.Some? then 1 else 0
  {
    hide Improvement, DisplayScore, IsRanked, GradesAfter, UserPp, UserAccuracy, HasPp;
  }

  lemma StepPlays(env: Env, db: Db, s: Score, t: Table)
    requires StatKeyOf(s) in db.stats && (t.ByMode? ==> t.k in db.stats)
    ensures t.ByMode? ==> t.k in ProcessUserStep(env, db, s).stats
    ensures PlayCounter(ProcessUserStep(env, db, s), t) ==
      PlayCounter(db, t) + if Under(s, t) && ValidLivePlay(env, s) then 1 else 0
  {
    hide ScorePpStep, TotalsAfter, StatsAfter, PlayCredit;
    PpStepKeeps(env, db, s);
    PlayStatsOnly(env, ScorePpStep(env, db, s), s, PlayCredit(s, env.totalLength(s.beatmap)));
  }

  /** In each of the three tables a counter is the number of valid plays under its key. */
  lemma {:induction false} PlayCountersCountValidPlays(env: Env, start: Db, list: seq<Score>, t: Table)
    requires Runnable(start, list) && (t.ByMode? ==> t.k in start.stats)
    ensures t.ByMode? ==> t.k in LiveRun(env, start, list).stats
    ensures PlayCounter(LiveRun(env, start, list), t) == PlayCounter(start, t) + ValidPlays(env, list, t)
  {
    hide ProcessUserStep, PlayCounter, Under, ValidLivePlay;
    LiveRunTables(env, start, list);
    if list != [] {
      var n := |list| - 1;
      PlayCountersCountValidPlays(env, start, list[..n], t);
      LiveRunTables(env, start, list[..n]);
      StepPlays(env, LiveRun(env, start, list[..n]), list[n], t);
    }
  }

  ghost function MonthsPlayed(list: seq<Score>): set<MonthKey> {
    set i | 0 <= i < |list| :: MonthKey(list[i].user, list[i].playMonth)
  }

  ghost function MapsPlayed(env: Env, list: seq<Score>): set<PlayKey> {
    set i | 0 <= i < |list| && ValidLivePlay(env, list[i]) :: PlayKey(list[i].user, list[i].beatmap)
  }

  lemma PlayedGrow(env: Env, list: seq<Score>)
    requires list != []
    ensures var n := |list| - 1; var s := list[n];
      && MonthsPlayed(list) == MonthsPlayed(list[..n]) + {MonthKey(s.user, s.playMonth)}
      && MapsPlayed(env, list) ==
         MapsPlayed(env, list[..n]) + if ValidLivePlay(env, s) then {PlayKey(s.user, s.beatmap)} else {}
  {
    hide ValidLivePlay;
    assert forall i :: 0 <= i < |list| - 1 ==> list[..|list| - 1][i] == list[i];
  }

  /** Any processed play brings its month's row into being, and only a valid one its beatmap's. */
  lemma {:induction false} CounterRowsExist(env: Env, start: Db, list: seq<Score>)
    requires Runnable(start, list)
    ensures LiveRun(env, start, list).monthly.Keys == start.monthly.Keys + MonthsPlayed(list)
    ensures LiveRun(env, start, list).plays.Keys == start.plays.Keys + MapsPlayed(env, list)
  {
    hide ProcessUserStep, ValidLivePlay, MonthsPlayed, MapsPlayed;
    if list == [] {
      NothingPlayed(env);
    } else {
      var n := |list| - 1;
      LiveRunTables(env, start, list[..n]);
      CounterRowsExist(env, start, list[..n]);
      StepAddsRows(env, LiveRun(env, start, list[..n]), list[n]);
      PlayedGrow(env, list);
    }
  }

  lemma NothingPlayed(env: Env)
    ensures MonthsPlayed([]) == {} && MapsPlayed(env, []) == {}
  {
  }

  lemma StepAddsRows(env: Env, db: Db, s: Score)
    requires StatKeyOf(s) in db.stats
    ensures ProcessUserStep(env, db, s).monthly.Keys == db.monthly.Keys + {MonthKey(s.user, s.playMonth)}
    ensures ProcessUserStep(env, db, s).plays.Keys ==
      db.plays.Keys + if ValidLivePlay(env, s) then {PlayKey(s.user, s.beatmap)} else {}
  {
    hide ScorePpStep, TotalsAfter, StatsAfter, PlayCredit;
    PpStepKeeps(env, db, s);
  }

  // ----- what a valid play is -----

  /** The whole seconds `n` of a time. */
  predicate WholeSeconds(n: int, time: real) { n as real <= time < n as real + 1.0 }

  /** The play's length: the map's at the play's rate, or the time that passed if that is shorter. */
  predicate PlayedFor(s: Score, mapLength: int, time: real) {
    && time <= s.elapsed
    && (if s.speedRate == 0.0 then time <= mapLength as real else time <= mapLength as real / s.speedRate)
    && (time == s.elapsed || time == if s.speedRate == 0.0 then mapLength as real else mapLength as real / s.speedRate)
  }

  function AllHit(h: Hits): nat {
    h.n300 + h.n100 + h.n50 + h.ngeki + h.nkatu + h.largeTickHit + h.largeTickMiss + h.smallTickHit + h.sliderTailHit
  }

  /**
   * A play counts, and is credited with its whole seconds, if it passed, or lasted more than 8 seconds with 5000
   * points or more and hit 20 objects or a tenth of those that score.
   */
  lemma CreditOnFields(s: Score, mapLength: int, time: real, seconds: int)
    requires PlayedFor(s, mapLength, time) && time >= 0.0 && WholeSeconds(seconds, time)
    ensures PlayCredit(s, mapLength) ==
      if s.passed ||
        (seconds > 8 && s.totalScore >= 5000 && (AllHit(s.hits) >= 20 || 10 * AllHit(s.hits) >= s.scorableTotal))
      then Some(seconds) else None
  {
    LengthIsWholeSeconds(s, mapLength, time, seconds);
    TenthOfObjects(AllHit(s.hits), s.scorableTotal);
    assert ObjectsHit(s.hits) == AllHit(s.hits);
    hide PlayLength, ObjectsHit, AllHit;
  }

  lemma LengthIsWholeSeconds(s: Score, mapLength: int, time: real, seconds: int)
    requires PlayedFor(s, mapLength, time) && time >= 0.0 && WholeSeconds(seconds, time)
    ensures PlayLength(s, mapLength) == seconds
  {
    var length := if s.speedRate == 0.0 then mapLength as real else mapLength as real / s.speedRate;
    assert time == if length < s.elapsed then length else s.elapsed;
    assert time.Floor == seconds;
  }

  lemma TenthOfObjects(hits: nat, total: nat)
    ensures hits as real >= (if 0.1 * total as real < 20.0 then 0.1 * total as real else 20.0) <==>
      hits >= 20 || 10 * hits >= total
  {
    assert 10.0 * hits as real == (10 * hits) as real;
  }

  /** The seconds credited to a user's plays of a mode. */
  function CreditedSeconds(env: Env, list: seq<Score>, k: StatKey): int {
    if list == [] then 0
    else
      var n := |list| - 1;
      CreditedSeconds(env, list[..n], k) +
      if StatKeyOf(list[n]) == k && ValidLivePlay(env, list[n])
      then PlayCredit(list[n], env.totalLength(list[n].beatmap)).value else 0
  }

  lemma PlayTimeOnly(env: Env, db: Db, s: Score, credit: Option<int>)
    requires StatKeyOf(s) in db.stats
    ensures StatsAfter(env, db, s, credit).playTime ==
      db.stats[StatKeyOf(s)].playTime + if credit.Some? then credit.value else 0
  {
    hide Improvement, DisplayScore, IsRanked, GradesAfter, UserPp, UserAccuracy, HasPp;
  }

  lemma StepTime(env: Env, db: Db, s: Score, k: StatKey)
    requires StatKeyOf(s) in db.stats && k in db.stats
    ensures k in ProcessUserStep(env, db, s).stats
    ensures ProcessUserStep(env, db, s).stats[k].playTime == db.stats[k].playTime +
      if StatKeyOf(s) == k && ValidLivePlay(env, s) then PlayCredit(s, env.totalLength(s.beatmap)).value else 0
  {
    hide ScorePpStep, TotalsAfter, StatsAfter, PlayCredit, MonthlyAfter, PlaysAfter;
    PpStepKeeps(env, db, s);
    PlayTimeOnly(env, ScorePpStep(env, db, s), s, PlayCredit(s, env.totalLength(s.beatmap)));
  }

  /** After any run the play time is what it was plus the seconds of the valid plays at the maps' total lengths. */
  lemma {:induction false} PlayTimeIsCredited(env: Env, start: Db, list: seq<Score>, k: StatKey)
    requires Runnable(start, list) && k in start.stats
    ensures k in LiveRun(env, start, list).stats
    ensures LiveRun(env, start, list).stats[k].playTime == start.stats[k].playTime + CreditedSeconds(env, list, k)
  {
    hide ProcessUserStep, PlayCredit;
    LiveRunTables(env, start, list);
    if list != [] {
      var n := |list| - 1;
      PlayTimeIsCredited(env, start, list[..n], k);
      LiveRunTables(env, start, list[..n]);
      StepTime(env, LiveRun(env, start, list[..n]), list[n], k);
    }
  }

  // ----- the longest combo -----

  predicate CombosCount(env: Env, s: Score, k: StatKey) { StatKeyOf(s) == k && s.passed && IsRanked(env, s) }

  ghost predicate IsLargest(env: Env, list: seq<Score>, k: StatKey, floor: int, largest: int) {
    && floor <= largest
    && (forall i :: 0 <= i < |list| && CombosCount(env, list[i], k) ==> list[i].maxCombo <= largest)
    && (largest == floor || exists i :: 0 <= i < |list| && CombosCount(env, list[i], k) && list[i].maxCombo == largest)
  }

  lemma StepCombo(env: Env, db: Db, s: Score, k: StatKey)
    requires k in db.stats && StatKeyOf(s) in db.stats
    ensures k in ProcessUserStep(env, db, s).stats
    ensures var before, after := db.stats[k].maximumCombo, ProcessUserStep(env, db, s).stats[k].maximumCombo;
      after == if CombosCount(env, s, k) && s.maxCombo > before then s.maxCombo else before
  {
    hide ScorePpStep, TotalsAfter, MonthlyAfter, PlaysAfter, PlayCredit, Improvement, DisplayScore, IsRanked,
      GradesAfter, UserPp, UserAccuracy, HasPp;
    PpStepKeeps(env, db, s);
  }

  /** The stored combo is the longest of the passed ranked plays, and never shrinks. */
  lemma {:induction false} MaximumComboIsLargest(env: Env, start: Db, list: seq<Score>, k: StatKey)
    requires Runnable(start, list) && k in start.stats
    ensures k in LiveRun(env, start, list).stats
    ensures IsLargest(env, list, k, start.stats[k].maximumCombo, LiveRun(env, start, list).stats[k].maximumCombo)
  {
    hide ProcessUserStep, CombosCount;
    LiveRunTables(env, start, list);
    if list != [] {
      var n := |list| - 1;
      MaximumComboIsLargest(env, start, list[..n], k);
      LiveRunTables(env, start, list[..n]);
      var before := LiveRun(env, start, list[..n]).stats[k].maximumCombo;
      StepCombo(env, LiveRun(env, start, list[..n]), list[n], k);
      LargestExtends(env, list, k, start.stats[k].maximumCombo, before);
    }
  }

  lemma LargestExtends(env: Env, list: seq<Score>, k: StatKey, floor: int, before: int)
    requires list != [] && IsLargest(env, list[..|list| - 1], k, floor, before)
    ensures var s := list[|list| - 1];
      IsLargest(env, list, k, floor, if CombosCount(env, s, k) && s.maxCombo > before then s.maxCombo else before)
  {
    hide CombosCount;
    var n := |list| - 1;
    assert forall i :: 0 <= i < n ==> list[..n][i] == list[i];
    if before != floor {
      var i :| 0 <= i < n && CombosCount(env, list[..n][i], k) && list[..n][i].maxCombo == before;
      assert CombosCount(env, list[i], k) && list[i].maxCombo == before;
    }
  }
}
