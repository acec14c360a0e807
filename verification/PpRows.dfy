/** The pp rows and the cached accuracy, column by column. */
module PpRows {
  import opened Wrappers
  import opened ScoreModel
  import opened Ordering
  import opened PpArithmetic
  import opened ScoreEngine
  import opened EngineRuns
  import opened PpCache
  import opened AdminRebuild

  /** The row has the play's columns and the given pp. */
  ghost predicate Carries(row: PpRow, s: Score, pp: real) {
    && row.key.user == s.user && row.key.beatmap == s.beatmap && row.key.mode == s.mode
    && row.scoreId == s.id && row.acc == s.accuracy && row.pp == pp
  }

  // ----- what a play earns -----

  /** Live processing: a passed, ranked play with pp-worthy mods earns its stored pp, or else what is calculated. */
  ghost predicate Earns(env: Env, stored: map<int, real>, s: Score, pp: real) {
    && s.passed && s.ranked && (env.policy(s.beatmap).ppEnabled || env.settings.allBeatmapPp) && env.canGetPp(s)
    && if s.id in stored && stored[s.id] != 0.0 then pp == stored[s.id] else env.calculatedPp(s) == Some(pp)
  }

  lemma LiveAwardIsEarned(env: Env, start: Db, s: Score, pp: real)
    ensures LiveAward(env, start)(s) == Some(pp) <==> Earns(env, start.storedPp, s, pp)
  {
  }

  /** The rebuild: besides, ranked-score eligibility and a positive stored pp. */
  ghost predicate Keeps(env: Env, stored: map<int, real>, s: Score, pp: real) {
    && s.passed && s.ranked && (env.policy(s.beatmap).ppEnabled || env.settings.allBeatmapPp) && env.canGetPp(s)
    && s.rankedScoreEligible && s.id in stored && stored[s.id] > 0.0 && pp == stored[s.id]
  }

  lemma RebuildAwardIsKept(env: Env, stored: map<int, real>, s: Score, pp: real)
    ensures RebuildAward(env, stored)(s) == Some(pp) <==> Keeps(env, stored, s, pp)
  {
    assert s.id !in stored ==> StoredPp(stored, s.id) == 0.0;
  }

  // ----- the row of a key -----

  /** No play of the key is awarded anything, or the one row carries the first play awarded the most. */
  ghost predicate HoldsFirstBest(rows: set<PpRow>, list: seq<Score>, award: Score -> Option<real>, key: Key, i: nat) {
    if rows == {} then forall j :: 0 <= j < |list| ==> !Awarded(list[j], award, key)
    else
      && FirstBest(list, award, key, i)
      && (forall row :: row in rows ==> Carries(row, list[i], award(list[i]).value))
      && (forall row, other :: row in rows && other in rows ==> row == other)
  }

  lemma RowOfBestColumns(list: seq<Score>, award: Score -> Option<real>, key: Key) returns (i: nat)
    ensures HoldsFirstBest(RowOfBest(list, award, key), list, award, key, i)
  {
    hide FirstMaxPp, FirstBest;
    i := FirstMaxPpIsFirstBest(list, award, key);
    FirstMaxIsAwarded(list, award, key);
  }

  /** After any run: the row of a key has user, beatmap, mode, id, accuracy and pp of the first best awarded play. */
  lemma RunRowColumns(env: Env, start: Db, list: seq<Score>, key: Key) returns (i: nat)
    requires Runnable(start, list) && PpRowsOf(start.bests, key) == {}
    ensures HoldsFirstBest(PpRowsOf(LiveRun(env, start, list).bests, key), list, LiveAward(env, start), key, i)
    ensures forall s, pp :: LiveAward(env, start)(s) == Some(pp) <==> Earns(env, start.storedPp, s, pp)
  {
    hide LiveRun, RowOfBest, HoldsFirstBest, PpRowsOf;
    LiveBests(env, start, list, key);
    i := RowOfBestColumns(list, LiveAward(env, start), key);
    forall s, pp ensures LiveAward(env, start)(s) == Some(pp) <==> Earns(env, start.storedPp, s, pp) {
      LiveAwardIsEarned(env, start, s, pp);
    }
  }

  /** And after a rebuild, of the first best play that the rebuild's own test keeps. */
  lemma RebuiltRowColumns(env: Env, db: Db, user: int, key: Key) returns (i: nat)
    requires KeyedById(db) && HasStatRows(db, user) && key.user == user
    ensures HoldsFirstBest(
      PpRowsOf(Rebuild(env, db, user).bests, key), Survivors(db, user), RebuildAward(env, db.storedPp), key, i)
    ensures forall s, pp :: RebuildAward(env, db.storedPp)(s) == Some(pp) <==> Keeps(env, db.storedPp, s, pp)
  {
    hide FoldStatistics, RowOfBest, HoldsFirstBest, PpRowsOf, Survivors, WithBatch, RebuildAward;
    RebuiltRows(env, db, user, key);
    FoldKeepsBests(env, WithBatch(env, db, user), Survivors(db, user));
    i := RowOfBestColumns(Survivors(db, user), RebuildAward(env, db.storedPp), key);
    forall s, pp ensures RebuildAward(env, db.storedPp)(s) == Some(pp) <==> Keeps(env, db.storedPp, s, pp) {
      RebuildAwardIsKept(env, db.storedPp, s, pp);
    }
  }

  // ----- the accuracy of the best plays -----

  /** Each play's accuracy at the weight of its place. */
  function WeightedAccuracies(plays: seq<Score>): real {
    if plays == [] then 0.0
    else
      var i := |plays| - 1;
      WeightedAccuracies(plays[..i]) + PpWeight(i) * plays[i].accuracy
  }

  /** Row by row, the plays that the rows were made from. */
  ghost predicate Behind(rows: seq<PpRow>, plays: seq<Score>) {
    |plays| == |rows| && forall i :: 0 <= i < |rows| ==> Carries(rows[i], plays[i], rows[i].pp)
  }

  lemma {:induction false} SameAccuracies(rows: seq<PpRow>, plays: seq<Score>)
    requires Behind(rows, plays) && forall i :: 0 <= i < |plays| ==> plays[i].accuracy >= 0.0
    ensures AccSum(rows) == WeightedAccuracies(plays)
  {
    hide PpWeight;
    if rows != [] {
      var i := |rows| - 1;
      SameAccuracies(rows[..i], plays[..i]);
      assert rows[i].acc == plays[i].accuracy;
    }
  }

  ghost predicate Fractions(list: seq<Score>) { forall i :: 0 <= i < |list| ==> 0.0 <= list[i].accuracy <= 1.0 }

  /** The play is, for its beatmap, the first of the run to be awarded the most. */
  ghost predicate BestOfItsBeatmap(list: seq<Score>, award: Score -> Option<real>, s: Score, pp: real) {
    exists i: nat :: FirstBest(list, award, KeyOf(s), i) && list[i] == s && award(s) == Some(pp)
  }

  /**
   * After any run of a user without pp rows, the stored accuracy is 100 times the weighted mean of the accuracies of
   * plays that are the first best of their beatmaps, in the order of their pp, highest first.
   */
  lemma StoredAccuracyIsWeightedMean(env: Env, start: Db, list: seq<Score>, user: int, mode: GameMode)
      returns (rows: seq<PpRow>, plays: seq<Score>)
    requires Runnable(start, list) && Fractions(list) && RowsOfUser(start.bests, user, mode) == {}
    requires StatKey(user, mode) in start.stats && CacheAgrees(env, start, StatKey(user, mode))
    ensures rows == BestPpRows(LiveRun(env, start, list).bests, user, mode) && Behind(rows, plays)
    ensures forall i :: 0 <= i < |plays| ==>
      && plays[i].user == user && plays[i].mode == mode
      && BestOfItsBeatmap(list, LiveAward(env, start), plays[i], rows[i].pp)
    ensures forall i, j :: 0 <= i < j < |rows| ==> rows[i].pp >= rows[j].pp
    ensures StatKey(user, mode) in LiveRun(env, start, list).stats
    ensures var stored := LiveRun(env, start, list).stats[StatKey(user, mode)].hitAccuracy;
      if plays == [] then stored == 0.0 else stored * WeightSum(|plays|) == 100.0 * WeightedAccuracies(plays)
  {
    hide LiveRun, PpRowsOf, BestPpRows, HoldsFirstBest, FirstBest, AccSum, WeightSum, NormalisedAcc, AwardedPp,
      PpSum, Runnable;
    rows := BestPpRows(LiveRun(env, start, list).bests, user, mode);
    plays := PlaysBehind(env, start, list, user, mode, rows);
    CacheAfter(env, start, list, user, mode);
    BestRowsDescend(LiveRun(env, start, list).bests, user, mode);
    if plays == [] {
      assert rows == [];
      NoRowsNoAccuracy();
    } else {
      forall i | 0 <= i < |rows| ensures 0.0 <= plays[i].accuracy <= 1.0 && rows[i].acc == plays[i].accuracy {
        FirstBestIsListed(list, LiveAward(env, start), plays[i], rows[i].pp);
      }
      HitAccuracyIsWeightedMean(rows, 0.0, 1.0);
      SameAccuracies(rows, plays);
    }
  }

  lemma NoRowsNoAccuracy()
    ensures HitAccuracy([]) == 0.0
  {
  }

  lemma FirstBestIsListed(list: seq<Score>, award: Score -> Option<real>, s: Score, pp: real)
    requires BestOfItsBeatmap(list, award, s, pp) && Fractions(list)
    ensures 0.0 <= s.accuracy <= 1.0
  {
    var i: nat :| FirstBest(list, award, KeyOf(s), i) && list[i] == s;
  }

  lemma CacheAfter(env: Env, start: Db, list: seq<Score>, user: int, mode: GameMode)
    requires Runnable(start, list) && RowsOfUser(start.bests, user, mode) == {}
    requires StatKey(user, mode) in start.stats && CacheAgrees(env, start, StatKey(user, mode))
    ensures StatKey(user, mode) in LiveRun(env, start, list).stats
    ensures LiveRun(env, start, list).stats[StatKey(user, mode)].hitAccuracy ==
      HitAccuracy(BestPpRows(LiveRun(env, start, list).bests, user, mode))
  {
    hide LiveRun, BestPpRows, PpSum, HitAccuracy, LiveAward, RowOfBest;
    NoRowsOfKey(start.bests, Key(user, 0, mode));
    LiveRunTables(env, start, list);
    PpCacheAgreement(env, start, list, Key(user, 0, mode));
  }

  lemma NoRowsOfKey(bests: set<PpRow>, key: Key)
    requires RowsOfUser(bests, key.user, key.mode) == {}
    ensures PpRowsOf(bests, key) == {}
  {
    assert forall r :: r in PpRowsOf(bests, key) ==> r in RowsOfUser(bests, key.user, key.mode);
  }

  lemma BestRowsDescend(bests: set<PpRow>, user: int, mode: GameMode)
    ensures var rows := BestPpRows(bests, user, mode);
      && (forall i, j :: 0 <= i < j < |rows| ==> rows[i].pp >= rows[j].pp)
      && (forall i :: 0 <= i < |rows| ==> rows[i] in RowsOfUser(bests, user, mode))
  {
    var all := OrderedRows(RowsOfUser(bests, user, mode), PP_ORDER);
    OrderedIsSorted(RowsOfUser(bests, user, mode));
    OrderedMembers(all, RowsOfUser(bests, user, mode));
    hide OrderedRows;
    var rows := BestPpRows(bests, user, mode);
    forall i, j | 0 <= i < j < |rows| ensures rows[i].pp >= rows[j].pp { assert PP_ORDER(all[i], all[j]); }
    forall i | 0 <= i < |rows| ensures rows[i] in RowsOfUser(bests, user, mode) { assert rows[i] == all[i]; }
  }

  /** The play behind each of the rows of the table. */
  lemma {:induction false} PlaysBehind(
      env: Env, start: Db, list: seq<Score>, user: int, mode: GameMode, rows: seq<PpRow>) returns (plays: seq<Score>)
    requires Runnable(start, list) && RowsOfUser(start.bests, user, mode) == {}
    requires rows == BestPpRows(LiveRun(env, start, list).bests, user, mode)
    ensures Behind(rows, plays)
    ensures forall i :: 0 <= i < |plays| ==>
      && plays[i].user == user && plays[i].mode == mode
      && BestOfItsBeatmap(list, LiveAward(env, start), plays[i], rows[i].pp)
  {
    hide LiveRun, BestPpRows, BestOfItsBeatmap, AwardedPp, Runnable, Carries;
    BestRowsDescend(LiveRun(env, start, list).bests, user, mode);
    plays := [];
    for n := 0 to |rows|
      invariant |plays| == n && forall i :: 0 <= i < n ==>
        && Carries(rows[i], plays[i], rows[i].pp) && plays[i].user == user && plays[i].mode == mode
        && BestOfItsBeatmap(list, LiveAward(env, start), plays[i], rows[i].pp)
    {
      var s := PlayBehind(env, start, list, user, mode, rows[n]);
      plays := plays + [s];
    }
  }

  lemma PlayBehind(env: Env, start: Db, list: seq<Score>, user: int, mode: GameMode, row: PpRow) returns (s: Score)
    requires Runnable(start, list) && RowsOfUser(start.bests, user, mode) == {}
    requires row in RowsOfUser(LiveRun(env, start, list).bests, user, mode)
    ensures Carries(row, s, row.pp) && s.user == user && s.mode == mode
    ensures BestOfItsBeatmap(list, LiveAward(env, start), s, row.pp)
  {
    hide LiveRun, Runnable, LiveAward;
    NoRowsOfKey(start.bests, row.key);
    var i := RunRowColumns(env, start, list, row.key);
    assert row in PpRowsOf(LiveRun(env, start, list).bests, row.key);
    s := list[i];
    assert KeyOf(s) == row.key;
  }


  // ----- the stored pp -----

  /**
   * What a run leaves in the pp column of one of its scores: nothing changes where the map or the play has no pp, zero
   * for a play that cannot earn any, what it earns otherwise, and no change where the calculation fails.
   */
  lemma {:induction false} StoredPpAfterRun(env: Env, start: Db, list: seq<Score>, i: nat)
    requires Runnable(start, list) && i < |list|
    ensures var s, stored := list[i], LiveRun(env, start, list).storedPp;
      if !(s.ranked && (env.policy(s.beatmap).ppEnabled || env.settings.allBeatmapPp)) then
        SamePp(start.storedPp, stored, s.id)
      else if !(s.passed && env.canGetPp(s)) then s.id in stored && stored[s.id] == 0.0
      else
        && (forall pp :: Earns(env, start.storedPp, s, pp) ==> s.id in stored && stored[s.id] == pp)
        && ((forall pp :: !Earns(env, start.storedPp, s, pp)) ==> SamePp(start.storedPp, stored, s.id))
  {
    hide ProcessUserStep, Earns, Runnable;
    var n := |list| - 1;
    RunnableBefore(start, list);
    if i < n {
      StoredPpAfterRun(env, start, list[..n], i);
      OtherPpKept(env, LiveRun(env, start, list[..n]), list[n], list[i].id);
    } else {
      PpUntilItsTurn(env, start, list[..n], list[n].id);
      LiveRunTables(env, start, list[..n]);
      PpOfItsTurn(env, start, LiveRun(env, start, list[..n]), list[n]);
    }
  }

  ghost predicate SamePp(a: map<int, real>, b: map<int, real>, id: int) {
    (id in a <==> id in b) && (id in a ==> a[id] == b[id])
  }

  lemma RunnableBefore(start: Db, list: seq<Score>)
    requires Runnable(start, list) && list != []
    ensures Runnable(start, list[..|list| - 1]) && StatKeyOf(list[|list| - 1]) in start.stats
    ensures forall j :: 0 <= j < |list| - 1 ==> list[j].id != list[|list| - 1].id
  {
  }

  lemma OtherPpKept(env: Env, db: Db, s: Score, id: int)
    requires s.id != id
    ensures SamePp(db.storedPp, ProcessUserStep(env, db, s).storedPp, id)
  {
    hide StatsAfter, TotalsAfter, MonthlyAfter, PlaysAfter, PlayCredit, BestsAfter, AwardedPp;
  }

  lemma {:induction false} PpUntilItsTurn(env: Env, start: Db, list: seq<Score>, id: int)
    requires forall j :: 0 <= j < |list| ==> list[j].id != id
    ensures SamePp(start.storedPp, LiveRun(env, start, list).storedPp, id)
  {
    hide ProcessUserStep;
    if list != [] {
      PpUntilItsTurn(env, start, list[..|list| - 1], id);
      OtherPpKept(env, LiveRun(env, start, list[..|list| - 1]), list[|list| - 1], id);
    }
  }

  lemma PpOfItsTurn(env: Env, start: Db, db: Db, s: Score)
    requires StatKeyOf(s) in db.stats && SamePp(start.storedPp, db.storedPp, s.id)
    ensures var stored := ProcessUserStep(env, db, s).storedPp;
      if !(s.ranked && (env.policy(s.beatmap).ppEnabled || env.settings.allBeatmapPp)) then
        SamePp(start.storedPp, stored, s.id)
      else if !(s.passed && env.canGetPp(s)) then s.id in stored && stored[s.id] == 0.0
      else
        && (forall pp :: Earns(env, start.storedPp, s, pp) ==> s.id in stored && stored[s.id] == pp)
        && ((forall pp :: !Earns(env, start.storedPp, s, pp)) ==> SamePp(start.storedPp, stored, s.id))
  {
    hide StatsAfter, TotalsAfter, MonthlyAfter, PlaysAfter, PlayCredit, BestsAfter;
    var awarded := AwardedPp(env, StoredPp(db.storedPp, s.id), s);
    if awarded.Some? && s.passed && HasPp(env, s) && env.canGetPp(s) {
      assert Earns(env, start.storedPp, s, awarded.value);
    }
  }
}
