/** Administrative deletion: forget every aggregate of a user and rebuild it from the surviving scores. */
module AdminRebuild {
  import opened Wrappers
  import opened ScoreModel
  import opened Ordering
  import opened PpArithmetic
  import opened ScoreEngine
  import opened LeaderboardIndex
  import opened EngineRuns
  import opened PpCache

  // ----- clearing -----

  function ClearStats(stats: map<StatKey, Stats>, user: int): map<StatKey, Stats> {
    map k | k in stats :: if k.user == user then FRESH_STATS else stats[k]
  }

  /** The deletes on the four modelled tables, and `_reset_statistics`. */
  function ClearUser(db: Db, user: int): Db {
    db.(totals := (set r | r in db.totals && r.key.user != user),
        bests := (set r | r in db.bests && r.key.user != user),
        stats := ClearStats(db.stats, user),
        monthly := (map k | k in db.monthly && k.user != user :: db.monthly[k]),
        plays := (map k | k in db.plays && k.user != user :: db.plays[k]))
  }

  // ----- the surviving scores -----

  /** ORDER BY ended_at, id. */
  const SCORE_ORDER: (Score, Score) -> bool :=
    (x: Score, y: Score) => x.endedAt < y.endedAt || (x.endedAt == y.endedAt && x.id <= y.id)

  function ProcessedScores(db: Db, user: int): set<Score> {
    set id | id in db.scores && id in db.processed && db.scores[id].user == user :: db.scores[id]
  }

  ghost function Survivors(db: Db, user: int): seq<Score> {
    OrderedRows(ProcessedScores(db, user), SCORE_ORDER)
  }

  /** The scores table is keyed by id. */
  ghost predicate KeyedById(db: Db) { forall id :: id in db.scores ==> db.scores[id].id == id }

  ghost predicate HasStatRows(db: Db, user: int) {
    forall s :: s in ProcessedScores(db, user) ==> StatKeyOf(s) in db.stats
  }

  // ----- pp rows in one batch -----

  /** The rebuild's own pp test: unlike live processing it also asks for ranked-score eligibility and positive pp. */
  function RebuildAward(env: Env, stored: map<int, real>): Score -> Option<real> {
    (s: Score) =>
      if s.passed && HasPp(env, s) && s.rankedScoreEligible && env.canGetPp(s) && StoredPp(stored, s.id) > 0.0
      then Some(StoredPp(stored, s.id)) else None
  }

  /** `pp_best`, keyed by user, beatmap and mode. */
  function PpBest(award: Score -> Option<real>, list: seq<Score>): map<Key, Score> {
    if list == [] then map[]
    else
      var n := |list| - 1;
      var best, s := PpBest(award, list[..n]), list[n];
      if award(s).Some? &&
         (KeyOf(s) !in best || award(best[KeyOf(s)]).None? || award(s).value > award(best[KeyOf(s)]).value)
      then best[KeyOf(s) := s] else best
  }

  function BatchRows(award: Score -> Option<real>, best: map<Key, Score>): set<PpRow> {
    set k | k in best && award(best[k]).Some? :: PpRowFor(best[k], award(best[k]).value)
  }

  // ----- the rebuild -----

  ghost function FoldStatistics(env: Env, start: Db, list: seq<Score>): Db {
    if list == [] then start
    else
      var n := |list| - 1;
      StatisticsStep(env, FoldStatistics(env, start, list[..n]), list[n], env.hitLength(list[n].beatmap))
  }

  ghost function WithBatch(env: Env, db: Db, user: int): Db {
    var cleared, award := ClearUser(db, user), RebuildAward(env, db.storedPp);
    cleared.(bests := cleared.bests + BatchRows(award, PpBest(award, Survivors(db, user))))
  }

  /** A surviving score without a statistics row raises, and the transaction is rolled back. */
  ghost function Rebuild(env: Env, db: Db, user: int): Db {
    if HasStatRows(db, user) then FoldStatistics(env, WithBatch(env, db, user), Survivors(db, user)) else db
  }

  function RemoveScore(db: Db, id: int): Db {
    db.(scores := db.scores - {id}, storedPp := db.storedPp - {id}, processed := db.processed - {id},
        totals := (set r | r in db.totals && r.scoreId != id), bests := (set r | r in db.bests && r.scoreId != id))
  }

  predicate OwnsScore(db: Db, user: int, id: int) { id in db.scores && db.scores[id].user == user }

  /** `delete_user_score`. */
  ghost function DeleteScore(env: Env, db: Db, user: int, id: int): Db {
    if OwnsScore(db, user, id) && HasStatRows(RemoveScore(db, id), user)
    then Rebuild(env, RemoveScore(db, id), user) else db
  }

  // ----- the survivors form a run -----

  lemma ScoreOrderIsTotal()
    ensures TotalPreorder(SCORE_ORDER)
  {
  }

  lemma ScoresKeyedById(db: Db, user: int)
    requires KeyedById(db)
    ensures forall s :: s in ProcessedScores(db, user) ==> s.id in db.scores && db.scores[s.id] == s && s.user == user
    ensures NoTies(ProcessedScores(db, user), SCORE_ORDER)
  {
  }

  lemma SurvivorsAreTheProcessedScores(db: Db, user: int)
    ensures var list := Survivors(db, user);
      && (forall s :: s in list <==> s in ProcessedScores(db, user))
      && (forall i, j :: 0 <= i < j < |list| ==> list[i] != list[j])
      && SortedBy(list, SCORE_ORDER)
  {
    hide ProcessedScores, OrderedRows;
    ScoreOrderIsTotal();
    OrderedMembers(Survivors(db, user), ProcessedScores(db, user));
  }

  /** In (ended_at, id) order, each processed score of the user exactly once. */
  lemma SurvivorsAreARun(db: Db, user: int)
    requires KeyedById(db) && HasStatRows(db, user)
    ensures Runnable(ClearUser(db, user), Survivors(db, user))
    ensures forall i :: 0 <= i < |Survivors(db, user)| ==> Survivors(db, user)[i].user == user
  {
    hide ProcessedScores, KeyedById, SortedBy, Survivors, NoTies;
    var list := Survivors(db, user);
    SurvivorsAreTheProcessedScores(db, user);
    ScoresKeyedById(db, user);
    assert forall i :: 0 <= i < |list| ==> list[i] in ProcessedScores(db, user);
  }

  // ----- everything but pp and play counters -----

  /** A statistics row without its pp and play-time columns. */
  function Masked(st: Stats): Stats { st.(pp := 0.0, hitAccuracy := 0.0, playCount := 0, playTime := 0) }

  ghost predicate AgreeMasked(a: Db, b: Db) {
    && a.scores == b.scores && a.totals == b.totals && a.stats.Keys == b.stats.Keys
    && forall k :: k in a.stats ==> Masked(a.stats[k]) == Masked(b.stats[k])
  }

  lemma ScoreStatsMasked(env: Env, scores: map<int, Score>, totals: set<TotalRow>, s: Score, a: Stats, b: Stats)
    requires Masked(a) == Masked(b)
    ensures Masked(ScoreStats(env, scores, totals, a, s)) == Masked(ScoreStats(env, scores, totals, b, s))
  {
    hide Improvement, IsRanked, GradesAfter, DisplayScore;
  }

  lemma StatsAfterMasked(env: Env, a: Db, b: Db, s: Score, creditA: Option<int>, creditB: Option<int>)
    requires AgreeMasked(a, b) && StatKeyOf(s) in a.stats
    ensures Masked(StatsAfter(env, a, s, creditA)) == Masked(StatsAfter(env, b, s, creditB))
  {
    hide ScoreStats, UserPp, UserAccuracy, HasPp;
    ScoreStatsMasked(env, a.scores, a.totals, s, a.stats[StatKeyOf(s)], b.stats[StatKeyOf(s)]);
  }

  lemma StepAgreesMasked(env: Env, live: Db, rebuilt: Db, s: Score)
    requires AgreeMasked(live, rebuilt)
    ensures AgreeMasked(ProcessUserStep(env, live, s), StatisticsStep(env, rebuilt, s, env.hitLength(s.beatmap)))
  {
    hide StatsAfter, ScorePpStep, TotalsAfter, MonthlyAfter, PlaysAfter, PlayCredit, Masked;
    PpStepKeeps(env, live, s);
    if StatKeyOf(s) in live.stats {
      StatsAfterMasked(env, ScorePpStep(env, live, s), rebuilt, s,
                       PlayCredit(s, env.totalLength(s.beatmap)), PlayCredit(s, env.hitLength(s.beatmap)));
    }
  }

  /** Leaderboard rows and every statistic but pp, accuracy, play count and play time agree unconditionally. */
  lemma {:induction false} RunsAgreeMasked(env: Env, live: Db, rebuilt: Db, list: seq<Score>)
    requires AgreeMasked(live, rebuilt)
    ensures AgreeMasked(LiveRun(env, live, list), FoldStatistics(env, rebuilt, list))
  {
    hide AgreeMasked, ProcessUserStep, StatisticsStep;
    if list != [] {
      var n := |list| - 1;
      RunsAgreeMasked(env, live, rebuilt, list[..n]);
      StepAgreesMasked(env, LiveRun(env, live, list[..n]), FoldStatistics(env, rebuilt, list[..n]), list[n]);
    }
  }

  // ----- play counters -----

  /** The two beatmap lengths credit every surviving score alike. */
  ghost predicate LengthsAgree(env: Env, list: seq<Score>) {
    forall i :: 0 <= i < |list| ==>
      PlayCredit(list[i], env.totalLength(list[i].beatmap)) == PlayCredit(list[i], env.hitLength(list[i].beatmap))
  }

  ghost predicate AgreeCounters(a: Db, b: Db) {
    && a.monthly == b.monthly && a.plays == b.plays && a.stats.Keys == b.stats.Keys
    && forall k :: k in a.stats ==>
        a.stats[k].playCount == b.stats[k].playCount && a.stats[k].playTime == b.stats[k].playTime
  }

  lemma StatsAfterPlays(env: Env, db: Db, s: Score, credit: Option<int>)
    requires StatKeyOf(s) in db.stats
    ensures var st, after := db.stats[StatKeyOf(s)], StatsAfter(env, db, s, credit);
      && after.playCount == st.playCount + (if credit.Some? then 1 else 0)
      && after.playTime == st.playTime + CreditValue(credit)
  {
    hide Improvement, IsRanked, GradesAfter, DisplayScore, UserPp, UserAccuracy, HasPp;
  }

  function CreditValue(credit: Option<int>): int { if credit.Some? then credit.value else 0 }

  lemma StepAgreesCounters(env: Env, live: Db, rebuilt: Db, s: Score)
    requires AgreeCounters(live, rebuilt)
    requires PlayCredit(s, env.totalLength(s.beatmap)) == PlayCredit(s, env.hitLength(s.beatmap))
    ensures AgreeCounters(ProcessUserStep(env, live, s), StatisticsStep(env, rebuilt, s, env.hitLength(s.beatmap)))
  {
    hide StatsAfter, ScorePpStep, TotalsAfter, MonthlyAfter, PlaysAfter, PlayCredit;
    PpStepKeeps(env, live, s);
    if StatKeyOf(s) in live.stats {
      StatsAfterPlays(env, ScorePpStep(env, live, s), s, PlayCredit(s, env.totalLength(s.beatmap)));
      StatsAfterPlays(env, rebuilt, s, PlayCredit(s, env.hitLength(s.beatmap)));
    }
  }

  lemma {:induction false} RunsAgreeCounters(env: Env, live: Db, rebuilt: Db, list: seq<Score>)
    requires AgreeCounters(live, rebuilt) && LengthsAgree(env, list)
    ensures AgreeCounters(LiveRun(env, live, list), FoldStatistics(env, rebuilt, list))
  {
    hide AgreeCounters, ProcessUserStep, StatisticsStep, PlayCredit;
    if list != [] {
      var n := |list| - 1;
      RunsAgreeCounters(env, live, rebuilt, list[..n]);
      StepAgreesCounters(env, LiveRun(env, live, list[..n]), FoldStatistics(env, rebuilt, list[..n]), list[n]);
    }
  }

  /** Total credited play time of the scores of one statistics row. */
  function CreditSum(list: seq<Score>, k: StatKey, credit: Score -> Option<int>): int {
    if list == [] then 0
    else
      var n := |list| - 1;
      CreditSum(list[..n], k, credit) + (if StatKeyOf(list[n]) == k then CreditValue(credit(list[n])) else 0)
  }

  function TotalCredit(env: Env): Score -> Option<int> { (s: Score) => PlayCredit(s, env.totalLength(s.beatmap)) }

  function HitCredit(env: Env): Score -> Option<int> { (s: Score) => PlayCredit(s, env.hitLength(s.beatmap)) }

  lemma {:induction false} LivePlayTime(env: Env, start: Db, list: seq<Score>, k: StatKey)
    requires Runnable(start, list) && k in start.stats
    ensures k in LiveRun(env, start, list).stats
    ensures LiveRun(env, start, list).stats[k].playTime ==
      start.stats[k].playTime + CreditSum(list, k, TotalCredit(env))
  {
    hide StatsAfter, ScorePpStep, TotalsAfter, MonthlyAfter, PlaysAfter, PlayCredit;
    LiveRunTables(env, start, list);
    if list != [] {
      var n := |list| - 1;
      LivePlayTime(env, start, list[..n], k);
      LiveRunTables(env, start, list[..n]);
      var before := LiveRun(env, start, list[..n]);
      PpStepKeeps(env, before, list[n]);
      StatsAfterPlays(env, ScorePpStep(env, before, list[n]), list[n],
        PlayCredit(list[n], env.totalLength(list[n].beatmap)));
    }
  }

  lemma {:induction false} RebuiltPlayTime(env: Env, start: Db, list: seq<Score>, k: StatKey)
    requires k in start.stats && forall i :: 0 <= i < |list| ==> StatKeyOf(list[i]) in start.stats
    ensures FoldStatistics(env, start, list).stats.Keys == start.stats.Keys
    ensures FoldStatistics(env, start, list).stats[k].playTime ==
      start.stats[k].playTime + CreditSum(list, k, HitCredit(env))
  {
    hide StatsAfter, TotalsAfter, MonthlyAfter, PlaysAfter, PlayCredit;
    if list != [] {
      var n := |list| - 1;
      RebuiltPlayTime(env, start, list[..n], k);
      StatsAfterPlays(env, FoldStatistics(env, start, list[..n]), list[n],
        PlayCredit(list[n], env.hitLength(list[n].beatmap)));
    }
  }

  /** Drain time never exceeds total time, and rates are positive. */
  ghost predicate SaneLengths(env: Env, list: seq<Score>) {
    forall i :: 0 <= i < |list| ==>
      env.hitLength(list[i].beatmap) <= env.totalLength(list[i].beatmap) && list[i].speedRate > 0.0
  }

  lemma TruncateMonotone(x: real, y: real)
    requires x <= y
    ensures Truncate(x) <= Truncate(y)
  {
  }

  lemma DivideMonotone(x: real, y: real, d: real)
    requires x <= y && d > 0.0
    ensures x / d <= y / d
  {
  }

  lemma PlayLengthMonotone(s: Score, short: int, long: int)
    requires short <= long && s.speedRate > 0.0
    ensures PlayLength(s, short) <= PlayLength(s, long)
  {
    hide Truncate;
    DivideMonotone(short as real, long as real, s.speedRate);
    var a, b := short as real / s.speedRate, long as real / s.speedRate;
    TruncateMonotone(if a < s.elapsed then a else s.elapsed, if b < s.elapsed then b else s.elapsed);
  }

  /** A longer beatmap never credits less, and it credits the same time only if the credits are the same. */
  lemma CreditMonotone(s: Score, short: int, long: int)
    requires short <= long && s.speedRate > 0.0
    ensures CreditValue(PlayCredit(s, short)) <= CreditValue(PlayCredit(s, long))
    ensures CreditValue(PlayCredit(s, short)) == CreditValue(PlayCredit(s, long)) ==>
      PlayCredit(s, short) == PlayCredit(s, long)
  {
    hide PlayLength;
    PlayLengthMonotone(s, short, long);
  }

  lemma {:induction false} SumsEqualMeansTermsEqual(
      list: seq<Score>, k: StatKey, f: Score -> Option<int>, g: Score -> Option<int>)
    requires forall i :: 0 <= i < |list| ==> CreditValue(f(list[i])) <= CreditValue(g(list[i]))
    ensures CreditSum(list, k, f) <= CreditSum(list, k, g)
    ensures CreditSum(list, k, f) == CreditSum(list, k, g) ==>
      forall i :: 0 <= i < |list| && StatKeyOf(list[i]) == k ==> CreditValue(f(list[i])) == CreditValue(g(list[i]))
  {
    if list != [] {
      SumsEqualMeansTermsEqual(list[..|list| - 1], k, f, g);
      assert forall i :: 0 <= i < |list| - 1 ==> list[..|list| - 1][i] == list[i];
    }
  }

  /** If play times agree everywhere, the two lengths credited every score alike. */
  lemma EqualPlayTimeMeansLengthsAgree(env: Env, list: seq<Score>)
    requires SaneLengths(env, list)
    requires forall i :: 0 <= i < |list| ==>
      CreditSum(list, StatKeyOf(list[i]), HitCredit(env)) == CreditSum(list, StatKeyOf(list[i]), TotalCredit(env))
    ensures LengthsAgree(env, list)
  {
    hide PlayCredit;
    forall i | 0 <= i < |list|
      ensures CreditValue(HitCredit(env)(list[i])) <= CreditValue(TotalCredit(env)(list[i]))
      ensures CreditValue(HitCredit(env)(list[i])) == CreditValue(TotalCredit(env)(list[i])) ==>
        HitCredit(env)(list[i]) == TotalCredit(env)(list[i])
    {
      CreditMonotone(list[i], env.hitLength(list[i].beatmap), env.totalLength(list[i].beatmap));
    }
    forall i | 0 <= i < |list| ensures HitCredit(env)(list[i]) == TotalCredit(env)(list[i]) {
      SumsEqualMeansTermsEqual(list, StatKeyOf(list[i]), HitCredit(env), TotalCredit(env));
    }
  }

  // ----- pp rows -----

  lemma {:induction false} PpBestIsFirstMax(award: Score -> Option<real>, list: seq<Score>, key: Key)
    ensures key in PpBest(award, list) <==> FirstMaxPp(list, award, key).Some?
    ensures key in PpBest(award, list) ==> FirstMaxPp(list, award, key) == Some(PpBest(award, list)[key])
  {
    if list != [] {
      PpBestIsFirstMax(award, list[..|list| - 1], key);
      FirstMaxIsAwarded(list[..|list| - 1], award, key);
    }
  }

  /** The batch inserts the same row per key that one-by-one processing with the same test would. */
  lemma BatchRowsOfKey(award: Score -> Option<real>, list: seq<Score>, key: Key)
    ensures PpRowsOf(BatchRows(award, PpBest(award, list)), key) == RowOfBest(list, award, key)
  {
    hide PpBest, FirstMaxPp;
    var best := PpBest(award, list);
    forall k | k in best ensures award(best[k]).Some? && KeyOf(best[k]) == k {
      PpBestIsFirstMax(award, list, k);
      FirstMaxIsAwarded(list, award, k);
    }
    PpBestIsFirstMax(award, list, key);
    forall r ensures r in PpRowsOf(BatchRows(award, best), key) <==> r in RowOfBest(list, award, key) {
      if key in best { assert PpRowFor(best[key], award(best[key]).value) in BatchRows(award, best); }
    }
  }

  /** Both pp tests agree on the play that live processing keeps, for every beatmap and mode. */
  ghost predicate PpAgrees(env: Env, db: Db, list: seq<Score>) {
    forall key ::
      var kept := FirstMaxPp(list, LiveAward(env, db), key);
      kept.Some? ==> RebuildAward(env, db.storedPp)(kept.value).Some?
  }

  lemma FirstBestIsUnique(list: seq<Score>, award: Score -> Option<real>, key: Key, i: nat, j: nat)
    requires FirstBest(list, award, key, i) && FirstBest(list, award, key, j)
    ensures i == j
  {
  }

  lemma NarrowedFirstBest(
      list: seq<Score>, wide: Score -> Option<real>, narrow: Score -> Option<real>, key: Key, i: nat)
    requires forall s :: narrow(s).Some? ==> wide(s) == narrow(s)
    requires FirstBest(list, wide, key, i) && narrow(list[i]).Some?
    ensures FirstBest(list, narrow, key, i)
  {
    assert forall j :: 0 <= j < |list| && Awarded(list[j], narrow, key) ==> Awarded(list[j], wide, key);
  }

  /** A narrower test keeps the same row exactly when it accepts the play that the wider one keeps. */
  lemma SameRowIff(list: seq<Score>, wide: Score -> Option<real>, narrow: Score -> Option<real>, key: Key)
    requires forall s :: narrow(s).Some? ==> wide(s) == narrow(s)
    requires forall i, j :: 0 <= i < j < |list| ==> list[i].id != list[j].id
    ensures RowOfBest(list, wide, key) == RowOfBest(list, narrow, key) <==>
      (FirstMaxPp(list, wide, key).Some? ==> narrow(FirstMaxPp(list, wide, key).value).Some?)
  {
    hide FirstMaxPp, FirstBest;
    var i := FirstMaxPpIsFirstBest(list, wide, key);
    var j := FirstMaxPpIsFirstBest(list, narrow, key);
    FirstMaxIsAwarded(list, wide, key);
    FirstMaxIsAwarded(list, narrow, key);
    assert forall n :: 0 <= n < |list| && Awarded(list[n], narrow, key) ==> Awarded(list[n], wide, key);
    if FirstMaxPp(list, wide, key).Some? {
      FirstBestInRange(list, wide, key, i);
      if narrow(list[i]).Some? {
        NarrowedFirstBest(list, wide, narrow, key, i);
        assert Awarded(list[i], narrow, key);
        FirstBestIsUnique(list, narrow, key, i, j);
      } else if FirstMaxPp(list, narrow, key).Some? {
        FirstBestInRange(list, narrow, key, j);
        assert PpRowFor(list[i], wide(list[i]).value).scoreId != PpRowFor(list[j], narrow(list[j]).value).scoreId;
        assert PpRowFor(list[i], wide(list[i]).value) in RowOfBest(list, wide, key);
      } else {
        assert PpRowFor(list[i], wide(list[i]).value) in RowOfBest(list, wide, key);
      }
    }
  }

  lemma FirstBestInRange(list: seq<Score>, award: Score -> Option<real>, key: Key, i: nat)
    requires FirstBest(list, award, key, i)
    ensures i < |list| && Awarded(list[i], award, key)
  {
  }

  lemma RebuildTestIsNarrower(env: Env, db: Db)
    ensures forall s :: RebuildAward(env, db.storedPp)(s).Some? ==>
      LiveAward(env, db)(s) == RebuildAward(env, db.storedPp)(s)
  {
  }

  lemma {:induction false} LiveBestsElsewhere(env: Env, start: Db, list: seq<Score>, key: Key)
    requires forall i :: 0 <= i < |list| ==> list[i].user != key.user
    ensures PpRowsOf(LiveRun(env, start, list).bests, key) == PpRowsOf(start.bests, key)
  {
    hide ProcessUserStep, ScorePpStep, BestsAfter, AwardedPp;
    if list != [] {
      var n := |list| - 1;
      LiveBestsElsewhere(env, start, list[..n], key);
      PpStepRows(env, LiveRun(env, start, list[..n]), list[n], key);
    }
  }

  lemma {:induction false} FoldKeepsBests(env: Env, start: Db, list: seq<Score>)
    ensures FoldStatistics(env, start, list).bests == start.bests
  {
    hide StatsAfter, TotalsAfter, MonthlyAfter, PlaysAfter, PlayCredit;
    if list != [] { FoldKeepsBests(env, start, list[..|list| - 1]); }
  }

  lemma NoAwardNoRow(list: seq<Score>, award: Score -> Option<real>, key: Key)
    requires forall i :: 0 <= i < |list| ==> KeyOf(list[i]) != key || award(list[i]).None?
    ensures RowOfBest(list, award, key) == {}
  {
    var i := FirstMaxPpIsFirstBest(list, award, key);
  }

  lemma RebuiltRows(env: Env, db: Db, user: int, key: Key)
    requires KeyedById(db) && HasStatRows(db, user)
    ensures PpRowsOf(WithBatch(env, db, user).bests, key) ==
      if key.user == user then RowOfBest(Survivors(db, user), RebuildAward(env, db.storedPp), key)
      else PpRowsOf(db.bests, key)
  {
    hide Survivors, RowOfBest, PpBest, BatchRows, RebuildAward;
    var list, award := Survivors(db, user), RebuildAward(env, db.storedPp);
    SurvivorsAreARun(db, user);
    BatchRowsOfKey(award, list, key);
    if key.user != user { NoAwardNoRow(list, award, key); }
    assert PpRowsOf(ClearUser(db, user).bests, key) == if key.user == user then {} else PpRowsOf(db.bests, key);
    var batch := BatchRows(award, PpBest(award, list));
    assert PpRowsOf(ClearUser(db, user).bests + batch, key) ==
      PpRowsOf(ClearUser(db, user).bests, key) + PpRowsOf(batch, key);
  }

  lemma {:induction false} SameAwardSameBest(
      list: seq<Score>, f: Score -> Option<real>, g: Score -> Option<real>, key: Key)
    requires forall s :: f(s) == g(s)
    ensures FirstMaxPp(list, f, key) == FirstMaxPp(list, g, key)
  {
    if list != [] { SameAwardSameBest(list[..|list| - 1], f, g, key); }
  }

  lemma LiveRows(env: Env, db: Db, user: int, key: Key)
    requires KeyedById(db) && HasStatRows(db, user)
    ensures PpRowsOf(LiveRun(env, ClearUser(db, user), Survivors(db, user)).bests, key) ==
      if key.user == user then RowOfBest(Survivors(db, user), LiveAward(env, db), key) else PpRowsOf(db.bests, key)
  {
    hide Survivors, LiveRun, FirstMaxPp, AwardedPp;
    var start, list := ClearUser(db, user), Survivors(db, user);
    SurvivorsAreARun(db, user);
    SameAwardSameBest(list, LiveAward(env, start), LiveAward(env, db), key);
    assert RowOfBest(list, LiveAward(env, start), key) == RowOfBest(list, LiveAward(env, db), key);
    assert PpRowsOf(start.bests, key) == if key.user == user then {} else PpRowsOf(db.bests, key);
    if key.user == user { LiveBests(env, start, list, key); } else { LiveBestsElsewhere(env, start, list, key); }
  }

  lemma SameRowsPerKey(a: set<PpRow>, b: set<PpRow>)
    ensures a == b <==> forall key :: PpRowsOf(a, key) == PpRowsOf(b, key)
  {
    if forall key :: PpRowsOf(a, key) == PpRowsOf(b, key) {
      forall r ensures r in a <==> r in b {
        assert r in a <==> r in PpRowsOf(a, r.key);
        assert r in b <==> r in PpRowsOf(b, r.key);
      }
    }
  }

  /** The batch gives the same pp rows as live processing exactly when the two pp tests agree on the kept plays. */
  lemma BestsAgreeIff(env: Env, db: Db, user: int)
    requires KeyedById(db) && HasStatRows(db, user)
    ensures WithBatch(env, db, user).bests == LiveRun(env, ClearUser(db, user), Survivors(db, user)).bests <==>
      PpAgrees(env, db, Survivors(db, user))
  {
    hide Survivors, RowOfBest, LiveRun, WithBatch, LiveAward, RebuildAward, FirstMaxPp, PpRowsOf;
    var list := Survivors(db, user);
    SurvivorsAreARun(db, user);
    RebuildTestIsNarrower(env, db);
    forall key: Key
      ensures PpRowsOf(WithBatch(env, db, user).bests, key) ==
              PpRowsOf(LiveRun(env, ClearUser(db, user), list).bests, key) <==>
        (FirstMaxPp(list, LiveAward(env, db), key).Some? ==>
           RebuildAward(env, db.storedPp)(FirstMaxPp(list, LiveAward(env, db), key).value).Some?)
    {
      RebuiltRows(env, db, user, key);
      LiveRows(env, db, user, key);
      if key.user == user {
        SameRowIff(list, LiveAward(env, db), RebuildAward(env, db.storedPp), key);
      } else {
        KeptPlayHasKey(list, LiveAward(env, db), key);
      }
    }
    SameRowsPerKey(WithBatch(env, db, user).bests, LiveRun(env, ClearUser(db, user), list).bests);
  }

  lemma KeptPlayHasKey(list: seq<Score>, award: Score -> Option<real>, key: Key)
    ensures FirstMaxPp(list, award, key).Some? ==> exists i :: 0 <= i < |list| && list[i].user == key.user
  {
    hide FirstMaxPp;
    var i := FirstMaxPpIsFirstBest(list, award, key);
  }

  // ----- cached pp after the rebuild -----

  ghost predicate Recalculates(env: Env, list: seq<Score>, k: StatKey) {
    exists i :: 0 <= i < |list| && StatKeyOf(list[i]) == k && list[i].passed && HasPp(env, list[i])
  }

  lemma StatisticsStepStats(env: Env, db: Db, s: Score, length: int, k: StatKey)
    requires StatKeyOf(s) in db.stats && k in db.stats
    ensures var after := StatisticsStep(env, db, s, length);
      && after.stats.Keys == db.stats.Keys && after.bests == db.bests
      && if k == StatKeyOf(s) && s.passed && HasPp(env, s) then
           after.stats[k].pp == UserPp(db.bests, k.user, k.mode, env.negative) &&
           after.stats[k].hitAccuracy == UserAccuracy(db.bests, k.user, k.mode)
         else after.stats[k].pp == db.stats[k].pp && after.stats[k].hitAccuracy == db.stats[k].hitAccuracy
  {
    hide Improvement, IsRanked, TotalsAfter, MonthlyAfter, PlaysAfter, PlayCredit, UserPp, UserAccuracy;
  }

  /** With the pp rows already complete, any recalculation stores the final pp; without one, the reset value stays. */
  lemma {:induction false} FoldCache(env: Env, start: Db, list: seq<Score>, k: StatKey)
    requires k in start.stats && forall i :: 0 <= i < |list| ==> StatKeyOf(list[i]) in start.stats
    ensures var after := FoldStatistics(env, start, list);
      && after.stats.Keys == start.stats.Keys
      && if Recalculates(env, list, k) then
           after.stats[k].pp == UserPp(start.bests, k.user, k.mode, env.negative) &&
           after.stats[k].hitAccuracy == UserAccuracy(start.bests, k.user, k.mode)
         else after.stats[k].pp == start.stats[k].pp && after.stats[k].hitAccuracy == start.stats[k].hitAccuracy
  {
    hide StatisticsStep, UserPp, UserAccuracy, HasPp;
    FoldKeepsBests(env, start, list);
    if list != [] {
      var n := |list| - 1;
      FoldCache(env, start, list[..n], k);
      FoldKeepsBests(env, start, list[..n]);
      StatisticsStepStats(env, FoldStatistics(env, start, list[..n]), list[n], env.hitLength(list[n].beatmap), k);
      RecalculatesStep(env, list, k);
    }
  }

  lemma RecalculatesStep(env: Env, list: seq<Score>, k: StatKey)
    requires list != []
    ensures var s := list[|list| - 1];
      Recalculates(env, list, k) <==>
        Recalculates(env, list[..|list| - 1], k) || (StatKeyOf(s) == k && s.passed && HasPp(env, s))
  {
    hide HasPp;
    var before := list[..|list| - 1];
    if Recalculates(env, before, k) {
      var i :| 0 <= i < |before| && StatKeyOf(before[i]) == k && before[i].passed && HasPp(env, before[i]);
      assert list[i] == before[i];
    }
    if Recalculates(env, list, k) {
      var i :| 0 <= i < |list| && StatKeyOf(list[i]) == k && list[i].passed && HasPp(env, list[i]);
      assert i < |before| ==> before[i] == list[i];
    }
  }

  lemma NoRecalculationNoRows(env: Env, db: Db, user: int, mode: GameMode)
    requires KeyedById(db) && HasStatRows(db, user)
    requires !Recalculates(env, Survivors(db, user), StatKey(user, mode))
    ensures RowsOfUser(WithBatch(env, db, user).bests, user, mode) == {}
  {
    hide Survivors, WithBatch, RowOfBest, HasPp;
    var bests := WithBatch(env, db, user).bests;
    forall r ensures r !in RowsOfUser(bests, user, mode) {
      if r in RowsOfUser(bests, user, mode) {
        assert r in PpRowsOf(bests, r.key);
        NoRecalculationNoRow(env, db, r.key);
      }
    }
  }

  lemma NoRecalculationNoRow(env: Env, db: Db, key: Key)
    requires KeyedById(db) && HasStatRows(db, key.user)
    requires !Recalculates(env, Survivors(db, key.user), StatKey(key.user, key.mode))
    ensures PpRowsOf(WithBatch(env, db, key.user).bests, key) == {}
  {
    hide Survivors, WithBatch, RowOfBest, HasPp;
    var list, award := Survivors(db, key.user), RebuildAward(env, db.storedPp);
    forall i | 0 <= i < |list| ensures KeyOf(list[i]) != key || award(list[i]).None? {
      assert KeyOf(list[i]) == key ==> StatKeyOf(list[i]) == StatKey(key.user, key.mode);
    }
    RebuiltRows(env, db, key.user, key);
    NoAwardNoRow(list, award, key);
  }

  lemma RebuiltCache(env: Env, db: Db, user: int, k: StatKey)
    requires KeyedById(db) && HasStatRows(db, user) && k.user == user
    ensures CacheAgrees(env, Rebuild(env, db, user), k)
  {
    hide Survivors, UserPp, UserAccuracy, FoldStatistics, Recalculates, BatchRows, PpBest, RebuildAward;
    var start, list := WithBatch(env, db, user), Survivors(db, user);
    SurvivorsAreARun(db, user);
    if k in start.stats {
      FoldCache(env, start, list, k);
      FoldKeepsBests(env, start, list);
      if !Recalculates(env, list, k) {
        NoRecalculationNoRows(env, db, user, k.mode);
        NoRowsNoPp(start.bests, user, k.mode, env.negative);
      }
    } else {
      FoldKeys(env, start, list);
    }
  }

  lemma {:induction false} FoldKeys(env: Env, start: Db, list: seq<Score>)
    ensures FoldStatistics(env, start, list).stats.Keys == start.stats.Keys
  {
    hide StatsAfter, TotalsAfter, MonthlyAfter, PlaysAfter, PlayCredit;
    if list != [] { FoldKeys(env, start, list[..|list| - 1]); }
  }

  lemma LiveCache(env: Env, db: Db, user: int, k: StatKey)
    requires KeyedById(db) && HasStatRows(db, user) && k.user == user
    ensures CacheAgrees(env, LiveRun(env, ClearUser(db, user), Survivors(db, user)), k)
  {
    hide Survivors, UserPp, UserAccuracy, LiveRun, RowOfBest, LiveAward;
    var start := ClearUser(db, user);
    SurvivorsAreARun(db, user);
    assert RowsOfUser(start.bests, k.user, k.mode) == {};
    NoRowsNoPp(start.bests, user, k.mode, env.negative);
    assert PpRowsOf(start.bests, Key(user, 0, k.mode)) == {};
    PpCacheAgreement(env, start, Survivors(db, user), Key(user, 0, k.mode));
  }

  // ----- other users -----

  ghost predicate SameForOthers(a: Db, b: Db, user: int) {
    forall k :: k in a.stats && k in b.stats && k.user != user ==> a.stats[k] == b.stats[k]
  }

  lemma {:induction false} LiveLeavesOthers(env: Env, start: Db, list: seq<Score>, user: int)
    requires forall i :: 0 <= i < |list| ==> list[i].user == user
    ensures SameForOthers(start, LiveRun(env, start, list), user)
    ensures LiveRun(env, start, list).stats.Keys == start.stats.Keys
  {
    hide StatsAfter, TotalsAfter, MonthlyAfter, PlaysAfter, PlayCredit, ScorePpStep;
    if list != [] {
      var n := |list| - 1;
      LiveLeavesOthers(env, start, list[..n], user);
      PpStepKeeps(env, LiveRun(env, start, list[..n]), list[n]);
    }
  }

  lemma {:induction false} FoldLeavesOthers(env: Env, start: Db, list: seq<Score>, user: int)
    requires forall i :: 0 <= i < |list| ==> list[i].user == user
    ensures SameForOthers(start, FoldStatistics(env, start, list), user)
    ensures FoldStatistics(env, start, list).stats.Keys == start.stats.Keys
  {
    hide StatsAfter, TotalsAfter, MonthlyAfter, PlaysAfter, PlayCredit;
    if list != [] { FoldLeavesOthers(env, start, list[..|list| - 1], user); }
  }

  // ----- deletion is an undo -----

  /** The aggregates a player sees. */
  datatype View = View(
    totals: set<TotalRow>, bests: set<PpRow>, stats: map<StatKey, Stats>,
    monthly: map<MonthKey, int>, plays: map<PlayKey, int>)

  function Visible(db: Db): View { View(db.totals, db.bests, db.stats, db.monthly, db.plays) }

  lemma SameStats(a: Stats, b: Stats)
    requires Masked(a) == Masked(b) && a.pp == b.pp && a.hitAccuracy == b.hitAccuracy
    requires a.playCount == b.playCount && a.playTime == b.playTime
    ensures a == b
  {
  }

  /** Always: leaderboard rows, and every statistic but pp, accuracy, play count and play time. */
  lemma RebuildAgreesMasked(env: Env, db: Db, user: int)
    requires HasStatRows(db, user)
    ensures AgreeMasked(LiveRun(env, ClearUser(db, user), Survivors(db, user)), Rebuild(env, db, user))
  {
    hide LiveRun, FoldStatistics, Survivors, BatchRows, PpBest;
    RunsAgreeMasked(env, ClearUser(db, user), WithBatch(env, db, user), Survivors(db, user));
  }

  lemma RebuildAgreesIf(env: Env, db: Db, user: int)
    requires KeyedById(db) && HasStatRows(db, user)
    requires PpAgrees(env, db, Survivors(db, user)) && LengthsAgree(env, Survivors(db, user))
    ensures Visible(Rebuild(env, db, user)) == Visible(LiveRun(env, ClearUser(db, user), Survivors(db, user)))
  {
    hide LiveRun, FoldStatistics, Survivors, BatchRows, PpBest, PpAgrees, LengthsAgree, Masked, UserPp, UserAccuracy;
    var start, list := ClearUser(db, user), Survivors(db, user);
    var live, rebuilt := LiveRun(env, start, list), Rebuild(env, db, user);
    SurvivorsAreARun(db, user);
    RebuildAgreesMasked(env, db, user);
    BestsAgreeIff(env, db, user);
    FoldKeepsBests(env, WithBatch(env, db, user), list);
    RunsAgreeCounters(env, start, WithBatch(env, db, user), list);
    LiveLeavesOthers(env, start, list, user);
    FoldLeavesOthers(env, WithBatch(env, db, user), list, user);
    forall k | k in live.stats ensures live.stats[k] == rebuilt.stats[k] {
      if k.user == user {
        LiveCache(env, db, user, k);
        RebuiltCache(env, db, user, k);
        SameStats(live.stats[k], rebuilt.stats[k]);
      }
    }
  }

  lemma RebuildAgreesOnlyIf(env: Env, db: Db, user: int)
    requires KeyedById(db) && HasStatRows(db, user) && SaneLengths(env, Survivors(db, user))
    requires Visible(Rebuild(env, db, user)) == Visible(LiveRun(env, ClearUser(db, user), Survivors(db, user)))
    ensures PpAgrees(env, db, Survivors(db, user)) && LengthsAgree(env, Survivors(db, user))
  {
    hide LiveRun, FoldStatistics, Survivors, BatchRows, PpBest, PpAgrees, LengthsAgree, CreditSum, PlayCredit,
      SaneLengths;
    var start, list := ClearUser(db, user), Survivors(db, user);
    SurvivorsAreARun(db, user);
    BestsAgreeIff(env, db, user);
    FoldKeepsBests(env, WithBatch(env, db, user), list);
    forall i | 0 <= i < |list|
      ensures CreditSum(list, StatKeyOf(list[i]), HitCredit(env)) ==
        CreditSum(list, StatKeyOf(list[i]), TotalCredit(env))
    {
      LivePlayTime(env, start, list, StatKeyOf(list[i]));
      RebuiltPlayTime(env, WithBatch(env, db, user), list, StatKeyOf(list[i]));
    }
    EqualPlayTimeMeansLengthsAgree(env, list);
  }

  /**
   * Deleting a score leaves exactly what live processing of the surviving scores alone, in (ended_at, id) order,
   * would have produced, if and only if the two pp tests agree on every kept play and the two beatmap lengths
   * credit every survivor alike. (Watched replays are reset as for a fresh record.)
   */
  lemma DeletionIsUndoIff(env: Env, db: Db, user: int, id: int)
    requires OwnsScore(db, user, id) && KeyedById(db) && HasStatRows(RemoveScore(db, id), user)
    requires SaneLengths(env, Survivors(RemoveScore(db, id), user))
    ensures var left := RemoveScore(db, id);
      var list := Survivors(left, user);
      Visible(DeleteScore(env, db, user, id)) == Visible(LiveRun(env, ClearUser(left, user), list)) <==>
        PpAgrees(env, left, list) && LengthsAgree(env, list)
  {
    hide LiveRun, Rebuild, Survivors, PpAgrees, LengthsAgree, SaneLengths, ClearUser, Visible, HasStatRows;
    var left := RemoveScore(db, id);
    if PpAgrees(env, left, Survivors(left, user)) && LengthsAgree(env, Survivors(left, user)) {
      RebuildAgreesIf(env, left, user);
    }
    if Visible(Rebuild(env, left, user)) == Visible(LiveRun(env, ClearUser(left, user), Survivors(left, user))) {
      RebuildAgreesOnlyIf(env, left, user);
    }
  }

  /** The pp tests agree when every awarded pp is positive and ranked scores are ranked-score eligible. */
  lemma PositivePpAgrees(env: Env, db: Db, list: seq<Score>)
    requires forall i :: 0 <= i < |list| && list[i].passed && list[i].ranked && env.canGetPp(list[i]) ==>
      list[i].rankedScoreEligible && StoredPp(db.storedPp, list[i].id) > 0.0
    ensures PpAgrees(env, db, list)
  {
    forall key | FirstMaxPp(list, LiveAward(env, db), key).Some?
      ensures RebuildAward(env, db.storedPp)(FirstMaxPp(list, LiveAward(env, db), key).value).Some?
    {
      var i := FirstMaxPpIsFirstBest(list, LiveAward(env, db), key);
      FirstMaxIsAwarded(list, LiveAward(env, db), key);
    }
  }
}
